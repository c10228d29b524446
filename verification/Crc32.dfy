/** Iteration and folding over any type; what holds here needs to know nothing about bits. */
module Iteration {

  function Iterate<T>(f: T -> T, x: T, n: nat): T {
    if n == 0 then x else Iterate(f, f(x), n - 1)
  }

  ghost predicate Linear<T(!new)>(f: T -> T, plus: (T, T) -> T) {
    forall a, b :: f(plus(a, b)) == plus(f(a), f(b))
  }

  lemma {:induction false} IterateLinear<T(!new)>(f: T -> T, plus: (T, T) -> T, x: T, y: T, n: nat)
    requires Linear(f, plus)
    ensures Iterate(f, plus(x, y), n) == plus(Iterate(f, x, n), Iterate(f, y, n))
    decreases n
  {
    if n > 0 {
      IterateLinear(f, plus, f(x), f(y), n - 1);
    }
  }

  lemma {:induction false} IterateInjective<T(!new)>(f: T -> T, x: T, y: T, n: nat)
    requires forall a, b :: f(a) == f(b) ==> a == b
    requires Iterate(f, x, n) == Iterate(f, y, n)
    ensures x == y
    decreases n
  {
    if n > 0 { IterateInjective(f, f(x), f(y), n - 1); }
  }

  function Fold<T, U>(step: (T, U) -> T, c: T, s: seq<U>): T
    decreases |s|
  {
    if s == [] then c else Fold(step, step(c, s[0]), s[1..])
  }

  lemma {:induction false} FoldConcat<T, U>(step: (T, U) -> T, c: T, a: seq<U>, b: seq<U>)
    ensures Fold(step, c, a + b) == Fold(step, Fold(step, c, a), b)
    decreases |a|
  {
    if a == [] {
      assert a + b == b;
    } else {
      assert (a + b)[1..] == a[1..] + b;
      FoldConcat(step, step(c, a[0]), a[1..], b);
    }
  }

  lemma {:induction false} FoldInjective<T(!new), U(!new)>(step: (T, U) -> T, x: T, y: T, s: seq<U>)
    requires forall a, b, u :: step(a, u) == step(b, u) ==> a == b
    requires Fold(step, x, s) == Fold(step, y, s)
    ensures x == y
    decreases |s|
  {
    if s != [] { FoldInjective(step, step(x, s[0]), step(y, s[0]), s[1..]); }
  }

  lemma {:induction false} FoldSame<T, U(!new)>(f: (T, U) -> T, g: (T, U) -> T, c: T, s: seq<U>)
    requires forall a, u :: f(a, u) == g(a, u)
    ensures Fold(f, c, s) == Fold(g, c, s)
    decreases |s|
  {
    if s != [] { FoldSame(f, g, f(c, s[0]), s[1..]); }
  }

}

/** CRC-32 as the snapshot format uses it: table-driven code, the bit-serial definition, and the errors it must catch. */
module Crc32 {
  import opened Iteration
  import opened Bits

  function Ones(): Word { seq(32, _ => true) }

  /** The reflected polynomial 0xEDB88320, low byte first. */
  function Poly(): Word { ByteBits(0x20) + ByteBits(0x83) + ByteBits(0xB8) + ByteBits(0xED) }

  function Shift(c: Word): Word { c[1..] + [false] }

  function Shift8(c: Word): Word { c[8..] + Zeros(8) }

  function LowByte(c: Word): Word { c[..8] + Zeros(24) }

  function HighBytes(c: Word): Word { Zeros(8) + c[8..] }

  function OfNat(n: nat): Word { BitsOf(n, 32) }

  function OfByte(b: Byte): Word { ByteBits(b) + Zeros(24) }

  /** One step of the reflected division register. */
  function BitStep(c: Word): Word {
    if c[0] then Xor(Poly(), Shift(c)) else Shift(c)
  }

  // ---- the bit-serial definition (section 8 of RFC 1952): message bits enter low bit first -----------------

  function FeedBit(c: Word, bit: bool): Word {
    BitStep(c[0 := c[0] != bit])
  }

  function FeedByte(c: Word, b: Byte): Word {
    Fold(FeedBit, c, ByteBits(b))
  }

  /** The CRC of a message after one whose CRC is the seed, by definition. */
  function Reference(bytes: seq<Byte>, seed: Word): Word {
    Xor(Fold(FeedByte, Xor(seed, Ones()), bytes), Ones())
  }

  // ---- facts about words --------------------------------------------------------------------------------------

  lemma ShiftXor(x: Word, y: Word)
    ensures Shift(Xor(x, y)) == Xor(Shift(x), Shift(y))
  {
  }

  lemma BitStepLinear(x: Word, y: Word)
    ensures BitStep(Xor(x, y)) == Xor(BitStep(x), BitStep(y))
  {
    var p := Poly();
    assert Xor(x, y)[0] == (x[0] != y[0]);
    ShiftXor(x, y);
    XorMiddle(p, Shift(x), Shift(y));
  }

  lemma RegisterLinear()
    ensures Linear(BitStep, Xor)
  {
    forall a, b
      ensures BitStep(Xor(a, b)) == Xor(BitStep(a), BitStep(b))
    {
      BitStepLinear(a, b);
    }
  }

  /** The polynomial's top bit is set, so a step leaves the bit it shifted out readable at the top. */
  lemma PolyTop()
    ensures Poly()[31]
  {
    BitsOfAt(0xED, 8, 7);
    assert Halved(237, 7) == Halved(118, 6) == Halved(59, 5) == Halved(29, 4);
    assert Halved(29, 4) == Halved(14, 3) == Halved(7, 2) == Halved(3, 1) == 1;
  }

  lemma StepTop(c: Word)
    ensures BitStep(c)[31] == c[0]
  {
    PolyTop();
  }

  lemma SameAfterStep(a: Word, b: Word)
    requires BitStep(a) == BitStep(b)
    ensures a == b
  {
    StepTop(a);
    StepTop(b);
    assert Shift(a) == Shift(b) by {
      if a[0] {
        XorComm(Poly(), Shift(a));
        XorComm(Poly(), Shift(b));
        XorCancel(Shift(a), Shift(b), Poly());
      }
    }
    assert a == [a[0]] + Shift(a)[..31] && b == [b[0]] + Shift(b)[..31];
  }

  lemma SplitByte(x: Word)
    ensures x == Xor(LowByte(x), HighBytes(x)) && Shift8(HighBytes(x)) == Shift8(x)
  {
  }

  // ---- the table-driven byte step ------------------------------------------------------------------------------

  function ShiftBy(c: Word, k: nat): Word
    requires k <= 32
  {
    c[k..] + Zeros(k)
  }

  /** While low bits are zero the register only shifts. */
  lemma {:induction false} ShiftOut(x: Word, k: nat)
    requires k <= 32 && x[..k] == Zeros(k)
    ensures Iterate(BitStep, x, k) == ShiftBy(x, k)
    decreases k
  {
    if k > 0 {
      assert !x[0];
      assert forall i :: 0 <= i < k - 1 ==> Shift(x)[i] == x[..k][i + 1];
      assert Shift(x)[..k - 1] == Zeros(k - 1);
      ShiftOut(Shift(x), k - 1);
    }
  }

  /** One whole byte: into the low bits, then eight steps. */
  function ByteStep(c: Word, b: Byte): Word {
    Iterate(BitStep, Xor(c, OfByte(b)), 8)
  }

  lemma HighBytesShiftOut(x: Word)
    ensures Iterate(BitStep, HighBytes(x), 8) == Shift8(x)
  {
    assert HighBytes(x)[..8] == Zeros(8);
    ShiftOut(HighBytes(x), 8);
  }

  /** Looking up the low byte and shifting the rest is eight steps at once. */
  lemma TableStep(x: Word)
    ensures Xor(Iterate(BitStep, LowByte(x), 8), Shift8(x)) == Iterate(BitStep, x, 8)
  {
    SplitByte(x);
    RegisterLinear();
    IterateLinear(BitStep, Xor, LowByte(x), HighBytes(x), 8);
    HighBytesShiftOut(x);
  }

  lemma UpperBytesKept(c: Word, b: Byte)
    ensures Shift8(Xor(c, OfByte(b))) == Shift8(c)
  {
  }

  lemma LookupStep(c: Word, b: Byte)
    ensures Xor(Iterate(BitStep, LowByte(Xor(c, OfByte(b))), 8), Shift8(c)) == ByteStep(c, b)
  {
    UpperBytesKept(c, b);
    TableStep(Xor(c, OfByte(b)));
  }

  function Index(c: Word): (n: nat)
    ensures n < 256 && OfNat(n) == LowByte(c)
  {
    BitsOfToNat(c[..8], 32);
    assert Pow2(8) == 256;
    ToNat(c[..8])
  }

  // ---- a byte step is eight bit feeds ------------------------------------------------------------------------------

  /** Some bits at the low end of a word. */
  function Low(m: seq<bool>): Word
    requires |m| <= 32
  {
    m + Zeros(32 - |m|)
  }

  /** The low message bit takes part in this step, the others move down one place. */
  lemma OneBit(c: Word, m: seq<bool>)
    requires 0 < |m| <= 32
    ensures BitStep(Xor(c, Low(m))) == Xor(FeedBit(c, m[0]), Low(m[1..]))
  {
    var d := c[0 := c[0] != m[0]];
    var rest := Low(m)[0 := false];
    assert Xor(c, Low(m)) == Xor(d, rest);
    BitStepLinear(d, rest);
    assert Shift(rest) == Low(m[1..]);
  }

  /** Message bits not yet fed sit xored into the register, in their places. */
  lemma {:induction false} FeedBits(c: Word, m: seq<bool>)
    requires |m| <= 32
    ensures Iterate(BitStep, Xor(c, Low(m)), |m|) == Fold(FeedBit, c, m)
    decreases |m|
  {
    if m == [] {
      XorZero(c);
      assert Low(m) == Zero();
    } else {
      OneBit(c, m);
      FeedBits(FeedBit(c, m[0]), m[1..]);
    }
  }

  lemma FeedIsSteps(c: Word, b: Byte)
    ensures FeedByte(c, b) == ByteStep(c, b)
  {
    assert OfByte(b) == Low(ByteBits(b));
    FeedBits(c, ByteBits(b));
  }

  lemma StateIsSerial(c: Word, bytes: seq<Byte>)
    ensures Fold(ByteStep, c, bytes) == Fold(FeedByte, c, bytes)
  {
    forall a, u
      ensures ByteStep(a, u) == FeedByte(a, u)
    {
      FeedIsSteps(a, u);
    }
    FoldSame(ByteStep, FeedByte, c, bytes);
  }

  /** The CRC in terms of whole-byte steps. */
  function Crc(bytes: seq<Byte>): Word {
    Xor(Fold(ByteStep, Ones(), bytes), Ones())
  }

  lemma CrcIsReference(bytes: seq<Byte>)
    ensures Crc(bytes) == Reference(bytes, Zero())
  {
    StateIsSerial(Ones(), bytes);
    XorZero(Ones());
  }

  /** Build the 256-entry table with two nested loops. */
  method BuildTable() returns (t: array<Word>)
    ensures fresh(t) && t.Length == 256
    ensures forall n :: 0 <= n < 256 ==> t[n] == Iterate(BitStep, OfNat(n), 8)
  {
    hide BitStep, OfNat;
    t := new Word[256](_ => Zero());
    for n := 0 to 256
      invariant forall m :: 0 <= m < n ==> t[m] == Iterate(BitStep, OfNat(m), 8)
    {
      var c := OfNat(n);
      for k := 0 to 8
        invariant Iterate(BitStep, c, 8 - k) == Iterate(BitStep, OfNat(n), 8)
      {
        c := BitStep(c);
      }
      t[n] := c;
    }
  }

  /** The table-driven loop computes the bit-serial CRC-32. */
  method Compute(bytes: seq<Byte>, seed: Word) returns (crc: Word)
    ensures crc == Reference(bytes, seed)
  {
    var table := BuildTable();
    var c := Xor(seed, Ones());
    ghost var c0 := c;
    for i := 0 to |bytes|
      invariant forall n :: 0 <= n < 256 ==> table[n] == Iterate(BitStep, OfNat(n), 8)
      invariant Fold(ByteStep, c0, bytes) == Fold(ByteStep, c, bytes[i..])
    {
      assert bytes[i..][0] == bytes[i] && bytes[i..][1..] == bytes[i + 1..];
      LookupStep(c, bytes[i]);
      var k := Index(Xor(c, OfByte(bytes[i])));
      c := Xor(table[k], Shift8(c));
    }
    StateIsSerial(c0, bytes);
    crc := Xor(c, Ones());
  }

  // ---- what the CRC catches ----------------------------------------------------------------------------------------

  lemma SameAfterSteps(a: Word, b: Word, n: nat)
    requires Iterate(BitStep, a, n) == Iterate(BitStep, b, n)
    ensures a == b
  {
    forall x, y | BitStep(x) == BitStep(y)
      ensures x == y
    {
      SameAfterStep(x, y);
    }
    IterateInjective(BitStep, a, b, n);
  }

  lemma SameAfterByte(a: Word, b: Word, u: Byte)
    requires ByteStep(a, u) == ByteStep(b, u)
    ensures a == b
  {
    SameAfterSteps(Xor(a, OfByte(u)), Xor(b, OfByte(u)), 8);
    XorCancel(a, b, OfByte(u));
  }

  lemma SameAfterBytes(a: Word, b: Word, s: seq<Byte>)
    requires Fold(ByteStep, a, s) == Fold(ByteStep, b, s)
    ensures a == b
  {
    forall x, y, u | ByteStep(x, u) == ByteStep(y, u)
      ensures x == y
    {
      SameAfterByte(x, y, u);
    }
    FoldInjective(ByteStep, a, b, s);
  }

  function AllBits(w: seq<Byte>): (m: seq<bool>)
    ensures |m| == 8 * |w|
  {
    if w == [] then [] else ByteBits(w[0]) + AllBits(w[1..])
  }

  lemma {:induction false} AllBitsInjective(w: seq<Byte>, w': seq<Byte>)
    requires |w| == |w'| && AllBits(w) == AllBits(w')
    ensures w == w'
    decreases |w|
  {
    if w != [] {
      assert AllBits(w)[..8] == ByteBits(w[0]) && AllBits(w')[..8] == ByteBits(w'[0]);
      assert AllBits(w)[8..] == AllBits(w[1..]) && AllBits(w')[8..] == AllBits(w'[1..]);
      ByteBitsInjective(w[0], w'[0]);
      AllBitsInjective(w[1..], w'[1..]);
      assert w == [w[0]] + w[1..] && w' == [w'[0]] + w'[1..];
    }
  }

  /** Feeding bytes is feeding all their bits. */
  lemma {:induction false} BytesAreBits(c: Word, w: seq<Byte>)
    ensures Fold(FeedByte, c, w) == Fold(FeedBit, c, AllBits(w))
    decreases |w|
  {
    if w != [] {
      FoldConcat(FeedBit, c, ByteBits(w[0]), AllBits(w[1..]));
      BytesAreBits(FeedByte(c, w[0]), w[1..]);
    }
  }

  /** Feeding up to four bytes one by one is xoring them in as one word first. */
  lemma WindowIsWord(c: Word, w: seq<Byte>)
    requires |w| <= 4
    ensures Fold(ByteStep, c, w) == Iterate(BitStep, Xor(c, Low(AllBits(w))), 8 * |w|)
  {
    StateIsSerial(c, w);
    BytesAreBits(c, w);
    FeedBits(c, AllBits(w));
  }

  lemma WindowsDiffer(c: Word, w: seq<Byte>, w': seq<Byte>)
    requires |w| == |w'| <= 4 && w != w'
    ensures Fold(ByteStep, c, w) != Fold(ByteStep, c, w')
  {
    if Fold(ByteStep, c, w) == Fold(ByteStep, c, w') {
      var p, p' := Low(AllBits(w)), Low(AllBits(w'));
      WindowIsWord(c, w);
      WindowIsWord(c, w');
      SameAfterSteps(Xor(c, p), Xor(c, p'), 8 * |w|);
      XorComm(c, p);
      XorComm(c, p');
      XorCancel(p, p', c);
      LowInjective(AllBits(w), AllBits(w'));
      AllBitsInjective(w, w');
    }
  }

  lemma LowInjective(m: seq<bool>, m': seq<bool>)
    requires |m| == |m'| <= 32 && Low(m) == Low(m')
    ensures m == m'
  {
    assert m == Low(m)[..|m|] && m' == Low(m')[..|m'|];
  }

  lemma StatesDiffer(c0: Word, before: seq<Byte>, w: seq<Byte>, w': seq<Byte>, after: seq<Byte>)
    requires |w| == |w'| <= 4 && w != w'
    ensures Fold(ByteStep, c0, before + w + after) != Fold(ByteStep, c0, before + w' + after)
  {
    var c := Fold(ByteStep, c0, before);
    FoldConcat(ByteStep, c0, before + w, after);
    FoldConcat(ByteStep, c0, before, w);
    FoldConcat(ByteStep, c0, before + w', after);
    FoldConcat(ByteStep, c0, before, w');
    WindowsDiffer(c, w, w');
    if Fold(ByteStep, c0, before + w + after) == Fold(ByteStep, c0, before + w' + after) {
      SameAfterBytes(Fold(ByteStep, c, w), Fold(ByteStep, c, w'), after);
    }
  }

  /** Any change confined to four consecutive bytes changes the CRC, whatever surrounds it. */
  lemma CatchesFourByteBursts(before: seq<Byte>, w: seq<Byte>, w': seq<Byte>, after: seq<Byte>)
    requires |w| == |w'| <= 4 && w != w'
    ensures Crc(before + w + after) != Crc(before + w' + after)
  {
    var s, s' := Fold(ByteStep, Ones(), before + w + after), Fold(ByteStep, Ones(), before + w' + after);
    StatesDiffer(Ones(), before, w, w', after);
    if Xor(s, Ones()) == Xor(s', Ones()) { XorCancel(s, s', Ones()); }
  }

  /** The register after a byte string. */
  function Register(bytes: seq<Byte>): Word { Fold(ByteStep, Ones(), bytes) }

  /** The state in which every string ends that carries its own CRC behind it. */
  function Residue(): Word { Iterate(BitStep, Ones(), 32) }

  lemma RegistersDiffer(before: seq<Byte>, w: seq<Byte>, w': seq<Byte>, after: seq<Byte>)
    requires |w| == |w'| <= 4 && w != w'
    ensures Register(before + w + after) != Register(before + w' + after)
  {
    StatesDiffer(Ones(), before, w, w', after);
  }

  lemma InvertedIff(c: Word, m: Word)
    ensures m == Xor(c, Ones()) <==> Xor(c, m) == Ones()
  {
    XorAt(c, m);
    XorAt(c, Ones());
  }

  /** Four bytes are the CRC of what is before them exactly when the register, run over all, ends in the residue. */
  lemma StoredIffResidue(body: seq<Byte>, crc: seq<Byte>)
    requires |crc| == 4
    ensures Crc(body) == AllBits(crc) <==> Register(body + crc) == Residue()
  {
    hide Fold, Iterate, AllBits, Xor, Ones;
    var c, m: Word := Register(body), AllBits(crc);
    FoldConcat(ByteStep, Ones(), body, crc);
    WindowIsWord(c, crc);
    assert Low(m) == m;
    InvertedIff(c, m);
    if Register(body + crc) == Residue() { SameAfterSteps(Xor(c, m), Ones(), 32); }
  }
}
