/** The published check value of CRC-32. */
module CrcKnown {
  import opened Bits
  import opened HashWord
  import opened Quads
  import opened QuadWords
  import opened Iteration
  import opened Crc32

  /** One step of the register on machine bytes. */
  function QuadStep(q: Quad): Quad {
    if q.b0 & 1 != 0 then QuadXor(Quad(0xED, 0xB8, 0x83, 0x20), QuadShift(q)) else QuadShift(q)
  }

  lemma StepTo(q: Quad)
    ensures BitStep(W(q)) == W(QuadStep(q))
  {
    hide W, Xor, QuadShift, QuadXor, Poly;
    WordShift(q);
    WordXor(Quad(0xED, 0xB8, 0x83, 0x20), QuadShift(q));
    PolyTo();
  }

  lemma PolyTo()
    ensures Poly() == W(Quad(0xED, 0xB8, 0x83, 0x20))
  {
    hide ByteBits;
  }

  /** Four steps, written out so that they can be worked on known bytes. */
  function QuadSteps4(q: Quad): Quad { QuadStep(QuadStep(QuadStep(QuadStep(q)))) }

  lemma StepsTo(q: Quad)
    ensures Iterate(BitStep, W(q), 8) == W(QuadSteps4(QuadSteps4(q)))
  {
    hide W, BitStep, QuadSteps4;
    Four(q, 4);
    Four(QuadSteps4(q), 0);
  }

  lemma Four(q: Quad, n: nat)
    ensures Iterate(BitStep, W(q), n + 4) == Iterate(BitStep, W(QuadSteps4(q)), n)
  {
    hide W, BitStep, QuadStep;
    var q1 := QuadStep(q);
    var q2 := QuadStep(q1);
    var q3 := QuadStep(q2);
    StepTo(q);
    StepTo(q1);
    StepTo(q2);
    StepTo(q3);
    IterateFour(BitStep, W(q), n);
  }

  lemma IterateFour<T>(f: T -> T, x: T, n: nat)
    ensures Iterate(f, x, n + 4) == Iterate(f, f(f(f(f(x)))), n)
  {
    assert Iterate(f, x, n + 4) == Iterate(f, f(x), n + 3);
    assert Iterate(f, f(x), n + 3) == Iterate(f, f(f(x)), n + 2);
  }

  lemma OnesTo()
    ensures Ones() == W(Quad(0xFF, 0xFF, 0xFF, 0xFF))
  {
    hide Octet;
    WordOctets(Quad(0xFF, 0xFF, 0xFF, 0xFF));
    assert Octet(0xFF) == seq(8, _ => true) by { AllOnes(); }
  }

  lemma AllOnes()
    ensures Octet(0xFF) == [true, true, true, true, true, true, true, true]
  {
  }

  lemma ByteTo(q: Quad, b: bv8, mid: Quad, out: Quad)
    requires QuadSteps4(QuadXor(q, Quad(0, 0, 0, b))) == mid && QuadSteps4(mid) == out
    ensures ByteStep(W(q), V(b) as Byte) == W(out)
  {
    hide W, Xor, QuadXor, QuadSteps4;
    WordXor(q, Quad(0, 0, 0, b));
    OfByteTo(b);
    StepsTo(QuadXor(q, Quad(0, 0, 0, b)));
  }

  lemma OfByteTo(b: bv8)
    ensures OfByte(V(b) as Byte) == W(Quad(0, 0, 0, b))
  {
    assert ByteBits(0) == Zeros(8);
    hide ByteBits;
  }

  // ---- the digits 1 to 9 ---------------------------------------------------------------------------------------------

  lemma Digit1()
    ensures ByteStep(W(Quad(0xFF, 0xFF, 0xFF, 0xFF)), 0x31) == W(Quad(0x7C, 0x23, 0x10, 0x48))
  {
    hide W, ByteStep;
    ByteTo(Quad(0xFF, 0xFF, 0xFF, 0xFF), 0x31, Quad(0xAF, 0xF5, 0x1D, 0x84), Quad(0x7C, 0x23, 0x10, 0x48));
  }

  lemma Digit2()
    ensures ByteStep(W(Quad(0x7C, 0x23, 0x10, 0x48)), 0x32) == W(Quad(0xB0, 0xAC, 0xBB, 0x32))
  {
    hide W, ByteStep;
    ByteTo(Quad(0x7C, 0x23, 0x10, 0x48), 0x32, Quad(0xD1, 0x14, 0x92, 0xEF), Quad(0xB0, 0xAC, 0xBB, 0x32));
  }

  lemma Digit3()
    ensures ByteStep(W(Quad(0xB0, 0xAC, 0xBB, 0x32)), 0x33) == W(Quad(0x77, 0xB7, 0x9C, 0x2D))
  {
    hide W, ByteStep;
    ByteTo(Quad(0xB0, 0xAC, 0xBB, 0x32), 0x33, Quad(0x16, 0xBD, 0xDB, 0xD4), Quad(0x77, 0xB7, 0x9C, 0x2D));
  }

  lemma Digit4()
    ensures ByteStep(W(Quad(0x77, 0xB7, 0x9C, 0x2D)), 0x34) == W(Quad(0x64, 0x1C, 0x1F, 0x5C))
  {
    hide W, ByteStep;
    ByteTo(Quad(0x77, 0xB7, 0x9C, 0x2D), 0x34, Quad(0xF7, 0x74, 0xEA, 0x85), Quad(0x64, 0x1C, 0x1F, 0x5C));
  }

  lemma Digit5()
    ensures ByteStep(W(Quad(0x64, 0x1C, 0x1F, 0x5C)), 0x35) == W(Quad(0x34, 0x0A, 0xC5, 0xE3))
  {
    hide W, ByteStep;
    ByteTo(Quad(0x64, 0x1C, 0x1F, 0x5C), 0x35, Quad(0xF6, 0x4E, 0x52, 0xB2), Quad(0x34, 0x0A, 0xC5, 0xE3));
  }

  lemma Digit6()
    ensures ByteStep(W(Quad(0x34, 0x0A, 0xC5, 0xE3)), 0x36) == W(Quad(0xF6, 0x8D, 0x2C, 0x9E))
  {
    hide W, ByteStep;
    ByteTo(Quad(0x34, 0x0A, 0xC5, 0xE3), 0x36, Quad(0x68, 0x2B, 0xFD, 0xA9), Quad(0xF6, 0x8D, 0x2C, 0x9E));
  }

  lemma Digit7()
    ensures ByteStep(W(Quad(0xF6, 0x8D, 0x2C, 0x9E)), 0x37) == W(Quad(0xAF, 0xFC, 0x96, 0x60))
  {
    hide W, ByteStep;
    ByteTo(Quad(0xF6, 0x8D, 0x2C, 0x9E), 0x37, Quad(0xFF, 0x67, 0x41, 0x8E), Quad(0xAF, 0xFC, 0x96, 0x60));
  }

  lemma Digit8()
    ensures ByteStep(W(Quad(0xAF, 0xFC, 0x96, 0x60)), 0x38) == W(Quad(0x65, 0x1F, 0x25, 0x50))
  {
    hide W, ByteStep;
    ByteTo(Quad(0xAF, 0xFC, 0x96, 0x60), 0x38, Quad(0xE7, 0x47, 0x4A, 0x45), Quad(0x65, 0x1F, 0x25, 0x50));
  }

  lemma Digit9()
    ensures ByteStep(W(Quad(0x65, 0x1F, 0x25, 0x50)), 0x39) == W(Quad(0x34, 0x0B, 0xC6, 0xD9))
  {
    hide W, ByteStep;
    ByteTo(Quad(0x65, 0x1F, 0x25, 0x50), 0x39, Quad(0xF6, 0x5E, 0x61, 0x12), Quad(0x34, 0x0B, 0xC6, 0xD9));
  }

  lemma OneMore(bytes: seq<Byte>, b: Byte)
    ensures Register(bytes + [b]) == ByteStep(Register(bytes), b)
  {
    FoldConcat(ByteStep, Ones(), bytes, [b]);
  }

  lemma Register5()
    ensures Register([0x31, 0x32, 0x33, 0x34, 0x35]) == W(Quad(0x34, 0x0A, 0xC5, 0xE3))
  {
    hide W, ByteStep, Register;
    OnesTo();
    NoBytes();
    assert [0x31] == [] + [0x31];
    OneMore([], 0x31);
    Digit1();
    assert [0x31, 0x32] == [0x31] + [0x32];
    OneMore([0x31], 0x32);
    Digit2();
    assert [0x31, 0x32, 0x33] == [0x31, 0x32] + [0x33];
    OneMore([0x31, 0x32], 0x33);
    Digit3();
    assert [0x31, 0x32, 0x33, 0x34] == [0x31, 0x32, 0x33] + [0x34];
    OneMore([0x31, 0x32, 0x33], 0x34);
    Digit4();
    assert [0x31, 0x32, 0x33, 0x34, 0x35] == [0x31, 0x32, 0x33, 0x34] + [0x35];
    OneMore([0x31, 0x32, 0x33, 0x34], 0x35);
    Digit5();
  }

  lemma NoBytes()
    ensures Register([]) == Ones()
  {
  }

  lemma Register9()
    ensures Register([0x31, 0x32, 0x33, 0x34, 0x35, 0x36, 0x37, 0x38, 0x39]) == W(Quad(0x34, 0x0B, 0xC6, 0xD9))
  {
    hide W, ByteStep, Register;
    Register5();
    assert [0x31, 0x32, 0x33, 0x34, 0x35, 0x36] == [0x31, 0x32, 0x33, 0x34, 0x35] + [0x36];
    OneMore([0x31, 0x32, 0x33, 0x34, 0x35], 0x36);
    Digit6();
    assert [0x31, 0x32, 0x33, 0x34, 0x35, 0x36, 0x37] == [0x31, 0x32, 0x33, 0x34, 0x35, 0x36] + [0x37];
    OneMore([0x31, 0x32, 0x33, 0x34, 0x35, 0x36], 0x37);
    Digit7();
    assert [0x31, 0x32, 0x33, 0x34, 0x35, 0x36, 0x37, 0x38] == [0x31, 0x32, 0x33, 0x34, 0x35, 0x36, 0x37] + [0x38];
    OneMore([0x31, 0x32, 0x33, 0x34, 0x35, 0x36, 0x37], 0x38);
    Digit8();
    assert [0x31, 0x32, 0x33, 0x34, 0x35, 0x36, 0x37, 0x38, 0x39] == [0x31, 0x32, 0x33, 0x34, 0x35, 0x36, 0x37, 0x38] + [0x39];
    OneMore([0x31, 0x32, 0x33, 0x34, 0x35, 0x36, 0x37, 0x38], 0x39);
    Digit9();
  }

  /** The CRC of the digits 1 to 9 is 0xCBF43926. */
  lemma CheckValue()
    ensures Num(Crc([0x31, 0x32, 0x33, 0x34, 0x35, 0x36, 0x37, 0x38, 0x39])) == 0xCBF43926
  {
    hide W, Num, Xor, ByteStep, Ones;
    Register9();
    OnesTo();
    WordXor(Quad(0x34, 0x0B, 0xC6, 0xD9), Quad(0xFF, 0xFF, 0xFF, 0xFF));
    WordValue(Quad(0xCB, 0xF4, 0x39, 0x26));
  }
}
