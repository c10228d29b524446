/** Words as four machine bytes, so that a word known by value can be worked on byte by byte. */
module Quads {
  /** Four bytes, the highest first. */
  datatype Quad = Quad(b3: bv8, b2: bv8, b1: bv8, b0: bv8)

  function V(u: bv8): (n: nat)
    ensures n < 256
  {
    u as nat
  }

  /** The number the four bytes spell. */
  function N(q: Quad): nat { V(q.b0) + 0x100 * V(q.b1) + 0x1_0000 * V(q.b2) + 0x100_0000 * V(q.b3) }

  lemma QuadSmall(q: Quad)
    ensures N(q) < 0x1_0000_0000
  {
    hide V;
  }

  function QuadXor(q: Quad, p: Quad): Quad { Quad(q.b3 ^ p.b3, q.b2 ^ p.b2, q.b1 ^ p.b1, q.b0 ^ p.b0) }

  /** A byte one place down, with the low bit of the next byte on top. */
  function Joined(low: bv8, high: bv8): bv8 { (low >> 1) | (high << 7) }

  function QuadShift(q: Quad): Quad {
    Quad(Joined(q.b3, 0), Joined(q.b2, q.b3), Joined(q.b1, q.b2), Joined(q.b0, q.b1))
  }
}

/** The word of four machine bytes, and what xor and shift do to it. */
module QuadWords {
  import opened Bits
  import opened HashWord
  import opened Quads

  function W(q: Quad): Word { Load(V(q.b0) as Byte, V(q.b1) as Byte, V(q.b2) as Byte, V(q.b3) as Byte) }

  lemma WordValue(q: Quad)
    ensures Num(W(q)) == N(q)
  {
    hide Load, V;
    LoadNumber(V(q.b0) as Byte, V(q.b1) as Byte, V(q.b2) as Byte, V(q.b3) as Byte);
  }

  // ---- the bits of a machine byte ----------------------------------------------------------------------------------

  predicate IsOdd(u: bv8) { u & 1 != 0 }

  function Halved(u: bv8): bv8 { u >> 1 }

  lemma Half(u: bv8)
    ensures (u as nat) / 2 == Halved(u) as nat && ((u as nat) % 2 == 1 <==> IsOdd(u))
  {
  }

  function LowBits(u: bv8, k: nat): (s: seq<bool>)
    ensures |s| == k
  {
    if k == 0 then [] else [IsOdd(u)] + LowBits(Halved(u), k - 1)
  }

  lemma {:induction false} BitsOfByte(u: bv8, k: nat)
    ensures BitsOf(u as nat, k) == LowBits(u, k)
    decreases k
  {
    if k > 0 {
      Half(u);
      BitsOfByte(Halved(u), k - 1);
    }
  }

  lemma LowStep(u: bv8, k: nat)
    requires k > 0
    ensures LowBits(u, k) == [IsOdd(u)] + LowBits(Halved(u), k - 1)
  {
  }

  lemma OddPlaces(u: bv8)
    ensures IsOdd(Halved(u)) <==> u & 2 != 0
    ensures IsOdd(Halved(Halved(u))) <==> u & 4 != 0
    ensures IsOdd(Halved(Halved(Halved(u)))) <==> u & 8 != 0
  {
  }

  lemma FourSteps(u: bv8, k: nat)
    ensures LowBits(u, k + 4)
         == [IsOdd(u), IsOdd(Halved(u)), IsOdd(Halved(Halved(u))), IsOdd(Halved(Halved(Halved(u))))]
          + LowBits(Halved(Halved(Halved(Halved(u)))), k)
  {
    hide Halved, IsOdd, LowBits;
    LowStep(u, k + 4);
    LowStep(Halved(u), k + 3);
    LowStep(Halved(Halved(u)), k + 2);
    LowStep(Halved(Halved(Halved(u))), k + 1);
  }

  lemma FourOff(u: bv8, k: nat)
    ensures LowBits(u, k + 4) == [u & 1 != 0, u & 2 != 0, u & 4 != 0, u & 8 != 0] + LowBits(u >> 4, k)
  {
    hide LowBits;
    OddPlaces(u);
    FourSteps(u, k);
  }

  /** The eight bits, each by its mask. */
  function Octet(u: bv8): (s: seq<bool>)
    ensures |s| == 8
  {
    [u & 1 != 0, u & 2 != 0, u & 4 != 0, u & 8 != 0, u & 16 != 0, u & 32 != 0, u & 64 != 0, u & 128 != 0]
  }

  lemma LowIsOctet(u: bv8)
    ensures LowBits(u, 8) == Octet(u)
  {
    hide LowBits;
    FourOff(u, 4);
    FourOff(u >> 4, 0);
    assert LowBits(u >> 4 >> 4, 0) == [];
  }

  lemma ByteIsOctet(u: bv8)
    ensures ByteBits(V(u) as Byte) == Octet(u)
  {
    hide Octet, LowBits;
    BitsOfByte(u, 8);
    LowIsOctet(u);
  }

  lemma WordOctets(q: Quad)
    ensures W(q) == Octet(q.b0) + Octet(q.b1) + Octet(q.b2) + Octet(q.b3)
  {
    hide V, ByteBits, Octet;
    ByteIsOctet(q.b0);
    ByteIsOctet(q.b1);
    ByteIsOctet(q.b2);
    ByteIsOctet(q.b3);
  }

  // ---- xor -----------------------------------------------------------------------------------------------------------

  /** Bit by bit. */
  function Pairwise(a: seq<bool>, b: seq<bool>): (c: seq<bool>)
    requires |a| == |b|
    ensures |c| == |a| && forall i :: 0 <= i < |a| ==> c[i] == (a[i] != b[i])
  {
    if a == [] then [] else [a[0] != b[0]] + Pairwise(a[1..], b[1..])
  }

  lemma PairwiseConcat(a: seq<bool>, b: seq<bool>, c: seq<bool>, d: seq<bool>)
    requires |a| == |b| && |c| == |d|
    ensures Pairwise(a + c, b + d) == Pairwise(a, b) + Pairwise(c, d)
  {
    hide Pairwise;
  }

  lemma FourPairs(a: seq<bool>, b: seq<bool>, c: seq<bool>, d: seq<bool>,
                  a': seq<bool>, b': seq<bool>, c': seq<bool>, d': seq<bool>)
    requires |a| == |a'| && |b| == |b'| && |c| == |c'| && |d| == |d'|
    ensures Pairwise(a + b + c + d, a' + b' + c' + d')
         == Pairwise(a, a') + Pairwise(b, b') + Pairwise(c, c') + Pairwise(d, d')
  {
    hide Pairwise;
    PairwiseConcat(a, a', b, b');
    PairwiseConcat(a + b, a' + b', c, c');
    PairwiseConcat(a + b + c, a' + b' + c', d, d');
  }

  predicate Differ(a: seq<bool>, b: seq<bool>, c: seq<bool>) {
    |a| == |b| == |c| && forall i :: 0 <= i < |a| ==> c[i] == (a[i] != b[i])
  }

  lemma DifferFirst(x: bool, y: bool, z: bool, a: seq<bool>, b: seq<bool>, c: seq<bool>)
    requires Differ(a, b, c) && z == (x != y)
    ensures Differ([x] + a, [y] + b, [z] + c)
  {
  }

  lemma DifferPairwise(a: seq<bool>, b: seq<bool>, c: seq<bool>)
    requires Differ(a, b, c)
    ensures c == Pairwise(a, b)
  {
    hide Pairwise;
  }

  lemma ShiftXor(u: bv8, v: bv8)
    ensures Halved(u ^ v) == Halved(u) ^ Halved(v) && (IsOdd(u ^ v) <==> IsOdd(u) != IsOdd(v))
  {
  }

  lemma {:induction false} LowXor(u: bv8, v: bv8, k: nat)
    ensures Differ(LowBits(u, k), LowBits(v, k), LowBits(u ^ v, k))
    decreases k, 1
  {
    if k > 0 {
      LowXorStep(u, v, k);
    }
  }

  lemma LowXorStep(u: bv8, v: bv8, k: nat)
    requires k > 0
    ensures Differ(LowBits(u, k), LowBits(v, k), LowBits(u ^ v, k))
    decreases k, 0
  {
    hide *;
    ShiftXor(u, v);
    LowStep(u, k);
    LowStep(v, k);
    LowStep(u ^ v, k);
    var a, b, c := LowBits(Halved(u), k - 1), LowBits(Halved(v), k - 1), LowBits(Halved(u ^ v), k - 1);
    assert Differ(a, b, c) by { LowXor(Halved(u), Halved(v), k - 1); }
    DifferFirst(IsOdd(u), IsOdd(v), IsOdd(u ^ v), a, b, c);
  }

  lemma OctetXor(u: bv8, v: bv8)
    ensures Octet(u ^ v) == Pairwise(Octet(u), Octet(v))
  {
    hide *;
    LowIsOctet(u);
    LowIsOctet(v);
    LowIsOctet(u ^ v);
    LowXor(u, v, 8);
    DifferPairwise(Octet(u), Octet(v), Octet(u ^ v));
  }

  lemma XorPairwise(x: Word, y: Word)
    ensures Xor(x, y) == Pairwise(x, y)
  {
    hide Pairwise;
    XorAt(x, y);
  }

  lemma WordXor(q: Quad, p: Quad)
    ensures Xor(W(q), W(p)) == W(QuadXor(q, p))
  {
    hide W, Xor, Octet, Pairwise;
    OctetXor(q.b0, p.b0);
    OctetXor(q.b1, p.b1);
    OctetXor(q.b2, p.b2);
    OctetXor(q.b3, p.b3);
    WordOctets(q);
    WordOctets(p);
    WordOctets(QuadXor(q, p));
    FourPairs(Octet(q.b0), Octet(q.b1), Octet(q.b2), Octet(q.b3), Octet(p.b0), Octet(p.b1), Octet(p.b2), Octet(p.b3));
    XorPairwise(W(q), W(p));
  }

  // ---- shift -------------------------------------------------------------------------------------------------------

  lemma OctetShift(u: bv8, v: bv8)
    ensures Octet(Joined(u, v)) == Octet(u)[1..] + [Octet(v)[0]]
  {
  }

  lemma FourShifts(a: seq<bool>, b: seq<bool>, c: seq<bool>, d: seq<bool>)
    requires |a| == |b| == |c| == |d| == 8
    ensures (a + b + c + d)[1..] + [false] == (a[1..] + [b[0]]) + (b[1..] + [c[0]]) + (c[1..] + [d[0]]) + (d[1..] + [false])
  {
  }

  lemma WordShift(q: Quad)
    ensures W(q)[1..] + [false] == W(QuadShift(q)) && (W(q)[0] <==> IsOdd(q.b0))
  {
    hide W, Joined;
    OctetShift(q.b0, q.b1);
    OctetShift(q.b1, q.b2);
    OctetShift(q.b2, q.b3);
    OctetShift(q.b3, 0);
    WordOctets(q);
    WordOctets(QuadShift(q));
    FourShifts(Octet(q.b0), Octet(q.b1), Octet(q.b2), Octet(q.b3));
  }
}
