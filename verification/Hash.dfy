/** The words of the hash: 32 bits that are added, subtracted, xored and rotated. */
module HashWord {
  import opened Bits

  lemma Size()
    ensures Pow2(32) == 0x1_0000_0000 && Pow2(24) == 0x100_0000 && Pow2(16) == 0x1_0000 && Pow2(8) == 0x100
  {
    PowStep(0);
    PowStep(8);
    PowStep(16);
    PowStep(24);
  }

  lemma PowStep(k: nat)
    ensures Pow2(k + 8) == 256 * Pow2(k)
  {
    assert Pow2(k + 8) == 2 * Pow2(k + 7) && Pow2(k + 7) == 2 * Pow2(k + 6) && Pow2(k + 6) == 2 * Pow2(k + 5);
    assert Pow2(k + 5) == 2 * Pow2(k + 4) && Pow2(k + 4) == 2 * Pow2(k + 3) && Pow2(k + 3) == 2 * Pow2(k + 2);
    assert Pow2(k + 2) == 2 * Pow2(k + 1) && Pow2(k + 1) == 2 * Pow2(k);
  }

  function Num(w: Word): (n: nat)
    ensures n < 0x1_0000_0000
  {
    Size();
    ToNat(w)
  }

  /** A number modulo 2^32. */
  function OfNum(n: nat): (w: Word)
    ensures Num(w) == n % 0x1_0000_0000
  {
    Size();
    ToNatBitsOf(n % 0x1_0000_0000, 32);
    BitsOf(n % 0x1_0000_0000, 32)
  }

  lemma NumInjective(x: Word, y: Word)
    requires Num(x) == Num(y)
    ensures x == y
  {
    ToNatInjective(x, y);
  }

  function Add(x: Word, y: Word): (r: Word)
    ensures Num(r) == (Num(x) + Num(y)) % 0x1_0000_0000
  {
    OfNum(Num(x) + Num(y))
  }

  function Sub(x: Word, y: Word): (r: Word)
    ensures Num(r) == (Num(x) + 0x1_0000_0000 - Num(y)) % 0x1_0000_0000
  {
    OfNum(Num(x) + 0x1_0000_0000 - Num(y))
  }

  /** Rotate towards the high end. */
  function Rot(x: Word, n: nat): Word
    requires 0 < n < 32
  {
    x[32 - n..] + x[..32 - n]
  }

  /** A byte moved to its place in a word. */
  function Place(b: Byte, i: nat): Word
    requires i < 4
  {
    Zeros(8 * i) + ByteBits(b) + Zeros(24 - 8 * i)
  }

  /** Four bytes summed at their places, as the byte-wise path does. */
  function SumWord(b0: Byte, b1: Byte, b2: Byte, b3: Byte): Word {
    Add(Add(Add(Place(b0, 0), Place(b1, 1)), Place(b2, 2)), Place(b3, 3))
  }

  /** Four bytes fetched from memory as one little-endian word. */
  function Load(b0: Byte, b1: Byte, b2: Byte, b3: Byte): Word {
    ByteBits(b0) + ByteBits(b1) + ByteBits(b2) + ByteBits(b3)
  }

  lemma AddSub(x: Word, y: Word)
    ensures Sub(Add(x, y), y) == x && Add(Sub(x, y), y) == x
  {
    hide *;
    ThereAndBack(Num(x), Num(y));
    NumInjective(Sub(Add(x, y), y), x);
    NumInjective(Add(Sub(x, y), y), x);
  }

  lemma ThereAndBack(x: nat, y: nat)
    requires x < 0x1_0000_0000 && y < 0x1_0000_0000
    ensures ((x + y) % 0x1_0000_0000 + 0x1_0000_0000 - y) % 0x1_0000_0000 == x
    ensures ((x + 0x1_0000_0000 - y) % 0x1_0000_0000 + y) % 0x1_0000_0000 == x
  {
  }

  lemma AddComm(x: Word, y: Word)
    ensures Add(x, y) == Add(y, x)
  {
  }

  lemma XorTwice(x: Word, y: Word)
    ensures Xor(Xor(x, y), y) == x
  {
  }

  lemma BytesDoubled(n: nat)
    ensures Doubled(n, 0) == n && Doubled(n, 8) == 0x100 * n && Doubled(n, 16) == 0x1_0000 * n && Doubled(n, 24) == 0x100_0000 * n
  {
    ByteDoubled(n, 0);
    ByteDoubled(n, 8);
    ByteDoubled(n, 16);
  }

  lemma {:induction false} ToNatZeros(k: nat)
    ensures ToNat(Zeros(k)) == 0
  {
    if k > 0 {
      assert Zeros(k)[1..] == Zeros(k - 1);
      ToNatZeros(k - 1);
    }
  }

  lemma ByteNumber(b: Byte)
    ensures ToNat(ByteBits(b)) == b as nat
  {
    Size();
    ToNatBitsOf(b as nat, 8);
  }

  lemma ByteAbove(k: nat, b: Byte, z: nat)
    ensures ToNat(Zeros(k) + ByteBits(b) + Zeros(z)) == Doubled(b as nat, k)
  {
    hide ByteBits, ToNat, Zeros;
    ByteNumber(b);
    ToNatZeros(k);
    ToNatZeros(z);
    ToNatConcat(Zeros(k) + ByteBits(b), Zeros(z));
    ToNatConcat(Zeros(k), ByteBits(b));
    DoubledZero(|Zeros(k) + ByteBits(b)|);
  }

  lemma {:induction false} DoubledZero(k: nat)
    ensures Doubled(0, k) == 0
  {
    if k > 0 { DoubledZero(k - 1); }
  }

  lemma PlaceNumber(b: Byte)
    ensures Num(Place(b, 0)) == b as nat && Num(Place(b, 1)) == 0x100 * b as nat
    ensures Num(Place(b, 2)) == 0x1_0000 * b as nat && Num(Place(b, 3)) == 0x100_0000 * b as nat
  {
    hide ByteBits, ToNat, Zeros, Doubled;
    ByteAbove(0, b, 24);
    ByteAbove(8, b, 16);
    ByteAbove(16, b, 8);
    ByteAbove(24, b, 0);
    BytesDoubled(b as nat);
  }

  lemma LoadNumber(b0: Byte, b1: Byte, b2: Byte, b3: Byte)
    ensures Num(Load(b0, b1, b2, b3)) == b0 as nat + 0x100 * b1 as nat + 0x1_0000 * b2 as nat + 0x100_0000 * b3 as nat
  {
    hide BitsOf, ToNat, Doubled;
    ByteNumber(b0);
    ByteNumber(b1);
    ByteNumber(b2);
    ByteNumber(b3);
    BytesDoubled(b1 as nat);
    BytesDoubled(b2 as nat);
    BytesDoubled(b3 as nat);
    ToNatConcat(ByteBits(b0) + ByteBits(b1) + ByteBits(b2), ByteBits(b3));
    ToNatConcat(ByteBits(b0) + ByteBits(b1), ByteBits(b2));
    ToNatConcat(ByteBits(b0), ByteBits(b1));
  }

  /** A word fetch reads what the byte-wise sum computes. */
  lemma LoadIsSum(b0: Byte, b1: Byte, b2: Byte, b3: Byte)
    ensures Load(b0, b1, b2, b3) == SumWord(b0, b1, b2, b3)
  {
    hide Place, Load, Add, Num;
    PlaceNumber(b0);
    PlaceNumber(b1);
    PlaceNumber(b2);
    PlaceNumber(b3);
    LoadNumber(b0, b1, b2, b3);
    NumInjective(Load(b0, b1, b2, b3), SumWord(b0, b1, b2, b3));
  }

  lemma SumInjective(b0: Byte, b1: Byte, b2: Byte, b3: Byte, c0: Byte, c1: Byte, c2: Byte, c3: Byte)
    requires SumWord(b0, b1, b2, b3) == SumWord(c0, c1, c2, c3)
    ensures b0 == c0 && b1 == c1 && b2 == c2 && b3 == c3
  {
    hide *;
    LoadIsSum(b0, b1, b2, b3);
    LoadIsSum(c0, c1, c2, c3);
    LoadInjective(b0, b1, b2, b3, c0, c1, c2, c3);
  }

  lemma LoadInjective(b0: Byte, b1: Byte, b2: Byte, b3: Byte, c0: Byte, c1: Byte, c2: Byte, c3: Byte)
    requires Load(b0, b1, b2, b3) == Load(c0, c1, c2, c3)
    ensures b0 == c0 && b1 == c1 && b2 == c2 && b3 == c3
  {
    hide BitsOf;
    var v, w := Load(b0, b1, b2, b3), Load(c0, c1, c2, c3);
    assert v[..8] == ByteBits(b0) && v[8..16] == ByteBits(b1) && v[16..24] == ByteBits(b2) && v[24..] == ByteBits(b3);
    assert w[..8] == ByteBits(c0) && w[8..16] == ByteBits(c1) && w[16..24] == ByteBits(c2) && w[24..] == ByteBits(c3);
    ByteBitsInjective(b0, c0);
    ByteBitsInjective(b1, c1);
    ByteBitsInjective(b2, c2);
    ByteBitsInjective(b3, c3);
  }

  /** Adding bytes one at a time, highest first, is adding their word. */
  lemma AddBytes(x: Word, b0: Byte, b1: Byte, b2: Byte, b3: Byte)
    ensures Add(Add(Add(Add(x, Place(b3, 3)), Place(b2, 2)), Place(b1, 1)), Place(b0, 0)) == Add(x, SumWord(b0, b1, b2, b3))
  {
    FiveSum(x, Place(b0, 0), Place(b1, 1), Place(b2, 2), Place(b3, 3));
  }

  lemma ModAgain(m: nat, n: nat)
    ensures (m % 0x1_0000_0000 + n) % 0x1_0000_0000 == (m + n) % 0x1_0000_0000
  {
  }

  lemma AddAssoc(x: Word, y: Word, z: Word)
    ensures Add(Add(x, y), z) == Add(x, Add(y, z))
  {
    hide *;
    ModAgain(Num(x) + Num(y), Num(z));
    ModAgain(Num(y) + Num(z), Num(x));
    NumInjective(Add(Add(x, y), z), Add(x, Add(y, z)));
  }

  lemma FiveSum(x: Word, p: Word, q: Word, r: Word, s: Word)
    ensures Add(Add(Add(Add(x, s), r), q), p) == Add(x, Add(Add(Add(p, q), r), s))
  {
    hide *;
    AddAssoc(x, s, r);
    AddAssoc(x, Add(s, r), q);
    AddAssoc(x, Add(Add(s, r), q), p);
    AddComm(s, r);
    AddComm(Add(r, s), q);
    AddComm(Add(q, Add(r, s)), p);
    AddAssoc(p, q, Add(r, s));
    AddAssoc(Add(p, q), r, s);
  }

  lemma AddZero(x: Word, z: Word)
    requires Num(z) == 0
    ensures Add(x, z) == x
  {
    hide *;
    NumInjective(Add(x, z), x);
  }

  lemma AddNothing(x: Word)
    ensures Add(x, Place(0, 0)) == x && Add(x, Place(0, 1)) == x && Add(x, Place(0, 2)) == x && Add(x, Place(0, 3)) == x
  {
    hide *;
    PlaceNumber(0);
    AddZero(x, Place(0, 0));
    AddZero(x, Place(0, 1));
    AddZero(x, Place(0, 2));
    AddZero(x, Place(0, 3));
  }

  /** A byte of a word, little end first. */
  function ByteOf(w: Word, i: nat): (b: Byte)
    requires i < 4
    ensures ByteBits(b) == w[8 * i..8 * i + 8]
  {
    Size();
    BitsOfToNat(w[8 * i..8 * i + 8], 8);
    ToNat(w[8 * i..8 * i + 8]) as Byte
  }

  lemma BytesOfWord(w: Word)
    ensures SumWord(ByteOf(w, 0), ByteOf(w, 1), ByteOf(w, 2), ByteOf(w, 3)) == w
  {
    hide ToNat, BitsOf, SumWord, ByteOf, ByteBits;
    LoadIsSum(ByteOf(w, 0), ByteOf(w, 1), ByteOf(w, 2), ByteOf(w, 3));
    assert w == w[0..8] + w[8..16] + w[16..24] + w[24..32];
  }
}

/** The hash itself: twelve-byte blocks mixed in, a tail, a final scramble. */
module Hash {
  import opened Bits
  import opened HashWord

  datatype State = State(a: Word, b: Word, c: Word)

  // ---- mixing --------------------------------------------------------------------------------------------

  /** One line of the mixing step: x loses z and a rotation of z, then z gains y. */
  function TurnX(x: Word, z: Word, r: nat): Word
    requires 0 < r < 32
  {
    Xor(Sub(x, z), Rot(z, r))
  }

  function UnturnX(x: Word, z: Word, r: nat): Word
    requires 0 < r < 32
  {
    Add(Xor(x, Rot(z, r)), z)
  }

  lemma TurnInverse(x: Word, z: Word, r: nat)
    requires 0 < r < 32
    ensures UnturnX(TurnX(x, z, r), z, r) == x && TurnX(UnturnX(x, z, r), z, r) == x
  {
    hide Add, Sub, Xor, Rot;
    XorTwice(Sub(x, z), Rot(z, r));
    AddSub(x, z);
    AddSub(Xor(x, Rot(z, r)), z);
    XorTwice(x, Rot(z, r));
  }

  /** A line with its names in the order they take part. */
  function Line(s: State, r: nat): State
    requires 0 < r < 32
  {
    State(TurnX(s.a, s.c, r), s.b, Add(s.c, s.b))
  }

  function Unline(s: State, r: nat): State
    requires 0 < r < 32
  {
    var c := Sub(s.c, s.b);
    State(UnturnX(s.a, c, r), s.b, c)
  }

  lemma LineInverse(s: State, r: nat)
    requires 0 < r < 32
    ensures Unline(Line(s, r), r) == s && Line(Unline(s, r), r) == s
  {
    hide Add, Sub, TurnX, UnturnX;
    AddSub(s.c, s.b);
    TurnInverse(s.a, s.c, r);
    TurnInverse(s.a, Sub(s.c, s.b), r);
  }

  /** The next line plays the same part for b, c, a; the one after for c, a, b. */
  function Left(s: State): State { State(s.b, s.c, s.a) }

  function Right(s: State): State { State(s.c, s.a, s.b) }

  function Three(s: State, r: nat, r': nat, r'': nat): State
    requires 0 < r < 32 && 0 < r' < 32 && 0 < r'' < 32
  {
    Left(Line(Left(Line(Left(Line(s, r)), r')), r''))
  }

  function Unthree(s: State, r: nat, r': nat, r'': nat): State
    requires 0 < r < 32 && 0 < r' < 32 && 0 < r'' < 32
  {
    Unline(Right(Unline(Right(Unline(Right(s), r'')), r')), r)
  }

  lemma ThreeInverse(s: State, r: nat, r': nat, r'': nat)
    requires 0 < r < 32 && 0 < r' < 32 && 0 < r'' < 32
    ensures Unthree(Three(s, r, r', r''), r, r', r'') == s && Three(Unthree(s, r, r', r''), r, r', r'') == s
  {
    hide Line, Unline;
    LineInverse(s, r);
    LineInverse(Left(Line(s, r)), r');
    LineInverse(Left(Line(Left(Line(s, r)), r')), r'');
    LineInverse(Right(s), r'');
    LineInverse(Right(Unline(Right(s), r'')), r');
    LineInverse(Right(Unline(Right(Unline(Right(s), r'')), r')), r);
  }

  function Mix(s: State): State { Three(Three(s, 4, 6, 8), 16, 19, 4) }

  function Unmix(s: State): State { Unthree(Unthree(s, 16, 19, 4), 4, 6, 8) }

  /** Mixing is a bijection. */
  lemma MixBijective(s: State)
    ensures Unmix(Mix(s)) == s && Mix(Unmix(s)) == s
  {
    hide Three, Unthree;
    ThreeInverse(s, 4, 6, 8);
    ThreeInverse(Three(s, 4, 6, 8), 16, 19, 4);
    ThreeInverse(s, 16, 19, 4);
    ThreeInverse(Unthree(s, 16, 19, 4), 4, 6, 8);
  }

  /** The mixing step as it is written, variable by variable. */
  method MixInPlace(s: State) returns (t: State)
    ensures t == Mix(s)
  {
    hide Add, Sub, Xor, Rot;
    var a, b, c := s.a, s.b, s.c;
    a := Sub(a, c); a := Xor(a, Rot(c, 4)); c := Add(c, b);
    b := Sub(b, a); b := Xor(b, Rot(a, 6)); a := Add(a, c);
    c := Sub(c, b); c := Xor(c, Rot(b, 8)); b := Add(b, a);
    a := Sub(a, c); a := Xor(a, Rot(c, 16)); c := Add(c, b);
    b := Sub(b, a); b := Xor(b, Rot(a, 19)); a := Add(a, c);
    c := Sub(c, b); c := Xor(c, Rot(b, 4)); b := Add(b, a);
    t := State(a, b, c);
  }

  // ---- the final scramble -----------------------------------------------------------------------------------

  function Stir(x: Word, z: Word, r: nat): Word
    requires 0 < r < 32
  {
    Sub(Xor(x, z), Rot(z, r))
  }

  function Unstir(x: Word, z: Word, r: nat): Word
    requires 0 < r < 32
  {
    Xor(Add(x, Rot(z, r)), z)
  }

  lemma StirInverse(x: Word, z: Word, r: nat)
    requires 0 < r < 32
    ensures Unstir(Stir(x, z, r), z, r) == x && Stir(Unstir(x, z, r), z, r) == x
  {
    hide Add, Sub, Xor, Rot;
    AddSub(Xor(x, z), Rot(z, r));
    XorTwice(x, z);
    XorTwice(Add(x, Rot(z, r)), z);
    AddSub(x, Rot(z, r));
  }

  function Final(s: State): State {
    var c := Stir(s.c, s.b, 14);
    var a := Stir(s.a, c, 11);
    var b := Stir(s.b, a, 25);
    var c2 := Stir(c, b, 16);
    var a2 := Stir(a, c2, 4);
    var b2 := Stir(b, a2, 14);
    State(a2, b2, Stir(c2, b2, 24))
  }

  function Unfinal(s: State): State {
    var c2 := Unstir(s.c, s.b, 24);
    var b := Unstir(s.b, s.a, 14);
    var a := Unstir(s.a, c2, 4);
    var c := Unstir(c2, b, 16);
    var b0 := Unstir(b, a, 25);
    var a0 := Unstir(a, c, 11);
    State(a0, b0, Unstir(c, b0, 14))
  }

  /** The final scramble is a bijection. */
  lemma FinalBijective(s: State)
    ensures Unfinal(Final(s)) == s && Final(Unfinal(s)) == s
  {
    hide Stir, Unstir;
    var c := Stir(s.c, s.b, 14);
    var a := Stir(s.a, c, 11);
    var b := Stir(s.b, a, 25);
    var c2 := Stir(c, b, 16);
    var a2 := Stir(a, c2, 4);
    var b2 := Stir(b, a2, 14);
    StirInverse(s.c, s.b, 14);
    StirInverse(s.a, c, 11);
    StirInverse(s.b, a, 25);
    StirInverse(c, b, 16);
    StirInverse(a, c2, 4);
    StirInverse(b, a2, 14);
    StirInverse(c2, b2, 24);
    var d2 := Unstir(s.c, s.b, 24);
    var y := Unstir(s.b, s.a, 14);
    var x := Unstir(s.a, d2, 4);
    var d := Unstir(d2, y, 16);
    var y0 := Unstir(y, x, 25);
    var x0 := Unstir(x, d, 11);
    StirInverse(s.c, s.b, 24);
    StirInverse(s.b, s.a, 14);
    StirInverse(s.a, d2, 4);
    StirInverse(d2, y, 16);
    StirInverse(y, x, 25);
    StirInverse(x, d, 11);
    StirInverse(d, y0, 14);
  }

  // ---- keys --------------------------------------------------------------------------------------------------

  type Key = seq<Byte>

  /** A key's byte, zero past its end. */
  function At(k: Key, i: nat): Byte { if i < |k| then k[i] else 0 }

  function WordAt(k: Key, i: nat): Word { SumWord(At(k, i), At(k, i + 1), At(k, i + 2), At(k, i + 3)) }

  function AddBlock(s: State, k: Key): State {
    State(Add(s.a, WordAt(k, 0)), Add(s.b, WordAt(k, 4)), Add(s.c, WordAt(k, 8)))
  }

  /** All whole twelve-byte blocks. */
  function Absorb(s: State, k: Key): State
    decreases |k|
  {
    if |k| < 12 then s else Absorb(Mix(AddBlock(s, k[..12])), k[12..])
  }

  function Rest(k: Key): (r: Key)
    ensures |r| < 12
  {
    if |k| < 12 then k else Rest(k[12..])
  }

  /** The last bytes, padded with zeros; the lowest byte of c stays free for the length. */
  function AddTail(s: State, k: Key): State
    requires |k| < 12
  {
    State(Add(s.a, WordAt(k, 0)), Add(s.b, WordAt(k, 4)), Add(s.c, SumWord(0, At(k, 8), At(k, 9), At(k, 10))))
  }

  function Start(len: nat): State {
    var w := OfNum(0x9e3779b9 + len + 3923095);
    State(w, w, w)
  }

  /** The state a key leads to before the result is read off. */
  function Digest(s: State, k: Key): State { Final(AddTail(Absorb(s, k), Rest(k))) }

  function HashOf(k: Key): Word { Digest(Start(|k|), k).c }

  // ---- the code -------------------------------------------------------------------------------------------------

  /** Whole blocks, by word fetches or byte by byte. */
  method AbsorbBlocks(s: State, k: Key, aligned: bool) returns (t: State, rest: Key)
    ensures t == Absorb(s, k) && rest == Rest(k)
  {
    hide Mix, AddBlock, Add, SumWord, Load;
    t, rest := s, k;
    while |rest| >= 12
      invariant Absorb(t, rest) == Absorb(s, k) && Rest(rest) == Rest(k)
      decreases |rest|
    {
      var block := rest[..12];
      var added := AddOne(t, block, aligned);
      t := MixInPlace(added);
      rest := rest[12..];
    }
  }

  method AddOne(s: State, k: Key, aligned: bool) returns (t: State)
    requires |k| == 12
    ensures t == AddBlock(s, k)
  {
    hide Add, SumWord, Load;
    if aligned {
      LoadIsSum(k[0], k[1], k[2], k[3]);
      LoadIsSum(k[4], k[5], k[6], k[7]);
      LoadIsSum(k[8], k[9], k[10], k[11]);
      t := State(Add(s.a, Load(k[0], k[1], k[2], k[3])), Add(s.b, Load(k[4], k[5], k[6], k[7])),
                 Add(s.c, Load(k[8], k[9], k[10], k[11])));
    } else {
      t := State(Add(s.a, SumWord(k[0], k[1], k[2], k[3])), Add(s.b, SumWord(k[4], k[5], k[6], k[7])),
                 Add(s.c, SumWord(k[8], k[9], k[10], k[11])));
    }
  }

  /** The bytes of one word, highest first, as far as the key reaches. */
  method AddReached(x: Word, k: Key, i: nat) returns (r: Word)
    ensures r == Add(x, WordAt(k, i))
  {
    hide Add, SumWord, Place;
    r := x;
    AddBytes(x, At(k, i), At(k, i + 1), At(k, i + 2), At(k, i + 3));
    ghost var x3 := Add(x, Place(At(k, i + 3), 3));
    ghost var x2 := Add(x3, Place(At(k, i + 2), 2));
    ghost var x1 := Add(x2, Place(At(k, i + 1), 1));
    AddNothing(x);
    AddNothing(x3);
    AddNothing(x2);
    AddNothing(x1);
    if |k| >= i + 4 {
      r := Add(r, Place(k[i + 3], 3));
    }
    if |k| >= i + 3 {
      r := Add(r, Place(k[i + 2], 2));
    }
    if |k| >= i + 2 {
      r := Add(r, Place(k[i + 1], 1));
    }
    if |k| >= i + 1 {
      r := Add(r, Place(k[i], 0));
    }
  }

  /** The last three bytes go above the lowest byte of c. */
  method AddHigh(x: Word, k: Key) returns (r: Word)
    requires |k| < 12
    ensures r == Add(x, SumWord(0, At(k, 8), At(k, 9), At(k, 10)))
  {
    hide Add, SumWord, Place;
    r := x;
    AddBytes(x, 0, At(k, 8), At(k, 9), At(k, 10));
    ghost var x3 := Add(x, Place(At(k, 10), 3));
    ghost var x2 := Add(x3, Place(At(k, 9), 2));
    ghost var x1 := Add(x2, Place(At(k, 8), 1));
    AddNothing(x);
    AddNothing(x3);
    AddNothing(x2);
    AddNothing(x1);
    if |k| >= 11 {
      r := Add(r, Place(k[10], 3));
    }
    if |k| >= 10 {
      r := Add(r, Place(k[9], 2));
    }
    if |k| >= 9 {
      r := Add(r, Place(k[8], 1));
    }
  }

  /** The tail: whole words are fetched where the path allows it, single bytes added elsewhere. */
  method AddLast(s: State, k: Key, aligned: bool) returns (t: State)
    requires |k| < 12
    ensures t == AddTail(s, k)
  {
    hide Add, SumWord, Load;
    var c := AddHigh(s.c, k);
    var a, b;
    if aligned && |k| >= 8 {
      LoadIsSum(k[4], k[5], k[6], k[7]);
      LoadIsSum(k[0], k[1], k[2], k[3]);
      b := Add(s.b, Load(k[4], k[5], k[6], k[7]));
      a := Add(s.a, Load(k[0], k[1], k[2], k[3]));
    } else {
      b := AddReached(s.b, k, 4);
      if aligned && |k| >= 4 {
        LoadIsSum(k[0], k[1], k[2], k[3]);
        a := Add(s.a, Load(k[0], k[1], k[2], k[3]));
      } else {
        a := AddReached(s.a, k, 0);
      }
    }
    t := State(a, b, c);
  }

  method FinalInPlace(s: State) returns (t: State)
    ensures t == Final(s)
  {
    hide Add, Sub, Xor, Rot;
    var a, b, c := s.a, s.b, s.c;
    c := Xor(c, b); c := Sub(c, Rot(b, 14));
    a := Xor(a, c); a := Sub(a, Rot(c, 11));
    b := Xor(b, a); b := Sub(b, Rot(a, 25));
    c := Xor(c, b); c := Sub(c, Rot(b, 16));
    a := Xor(a, c); a := Sub(a, Rot(c, 4));
    b := Xor(b, a); b := Sub(b, Rot(a, 14));
    c := Xor(c, b); c := Sub(c, Rot(b, 24));
    t := State(a, b, c);
  }

  method DigestKey(s: State, k: Key, aligned: bool) returns (t: State)
    ensures t == Digest(s, k)
  {
    hide Absorb, Rest, AddTail, Final;
    var u, rest := AbsorbBlocks(s, k, aligned);
    u := AddLast(u, rest, aligned);
    t := FinalInPlace(u);
  }

  /** The same hash whether or not the key is word-aligned. */
  method HashBytes(k: Key, aligned: bool) returns (c: Word)
    ensures c == HashOf(k)
  {
    var t := DigestKey(Start(|k|), k, aligned);
    c := t.c;
  }

  /** A seed of two words goes in as a block of its own, unless it is zero. */
  function Seeded(s: State, hi: Word, lo: Word): State {
    if hi == Zero() && lo == Zero() then s else Mix(State(Add(s.a, hi), Add(s.b, lo), s.c))
  }

  /** Both halves of the extended hash. */
  function ExtendedOf(k: Key, hi: Word, lo: Word): (Word, Word) {
    var t := Digest(Seeded(Start(|k|), hi, lo), k);
    (t.b, t.c)
  }

  method HashExtended(k: Key, hi: Word, lo: Word, aligned: bool) returns (r: (Word, Word))
    ensures r == ExtendedOf(k, hi, lo)
  {
    hide Digest, Mix, Add, Start;
    var s := Start(|k|);
    if hi != Zero() || lo != Zero() {
      s := MixInPlace(State(Add(s.a, hi), Add(s.b, lo), s.c));
    }
    var t := DigestKey(s, k, aligned);
    r := (t.b, t.c);
  }

  /** With seed zero the low half of the extended hash is the plain hash. */
  lemma ExtendedLowHalf(k: Key)
    ensures ExtendedOf(k, Zero(), Zero()).1 == HashOf(k)
  {
    hide Digest, Mix, Add, Start;
  }

  /** The four bytes of a word as memory holds them. */
  function BytesOf(w: Word): (k: Key)
    ensures |k| == 4
  {
    [ByteOf(w, 0), ByteOf(w, 1), ByteOf(w, 2), ByteOf(w, 3)]
  }

  lemma WordKey(s: State, w: Word)
    ensures AddTail(Absorb(s, BytesOf(w)), Rest(BytesOf(w))) == State(Add(s.a, w), s.b, s.c)
  {
    hide Add, SumWord, ByteOf, Place, Mix;
    var k := BytesOf(w);
    BytesOfWord(w);
    assert WordAt(k, 0) == w;
    AddSum(s.b);
    AddSum(s.c);
  }

  /** Zero bytes sum to nothing. */
  lemma AddSum(x: Word)
    ensures Add(x, SumWord(0, 0, 0, 0)) == x
  {
    hide Add, SumWord, Place;
    AddBytes(x, 0, 0, 0, 0);
    AddNothing(x);
  }

  /** The short form for one word hashes its four little-endian bytes. */
  method HashU32(w: Word) returns (c: Word)
    ensures c == HashOf(BytesOf(w))
  {
    hide Absorb, Rest, AddTail, Final, Add, Start;
    WordKey(Start(4), w);
    var s := Start(4);
    var t := FinalInPlace(State(Add(s.a, w), s.b, s.c));
    c := t.c;
  }

  method HashU32Extended(w: Word, hi: Word, lo: Word) returns (r: (Word, Word))
    ensures r == ExtendedOf(BytesOf(w), hi, lo)
  {
    hide Absorb, Rest, AddTail, Final, Add, Mix, Start;
    var s := Start(4);
    if hi != Zero() || lo != Zero() {
      s := MixInPlace(State(Add(s.a, hi), Add(s.b, lo), s.c));
    }
    WordKey(s, w);
    var t := FinalInPlace(State(Add(s.a, w), s.b, s.c));
    r := (t.b, t.c);
  }

  // ---- keys that differ in one place ---------------------------------------------------------------------------------

  lemma AddKeepsApart(x: Word, u: Word, v: Word)
    requires Add(x, u) == Add(x, v)
    ensures u == v
  {
    hide *;
    AddComm(x, u);
    AddComm(x, v);
    AddSub(u, x);
    AddSub(v, x);
  }

  lemma AddFromApart(x: Word, y: Word, u: Word)
    requires Add(x, u) == Add(y, u)
    ensures x == y
  {
    hide *;
    AddSub(x, u);
    AddSub(y, u);
  }

  lemma MixInjective(s: State, t: State)
    requires Mix(s) == Mix(t)
    ensures s == t
  {
    hide *;
    MixBijective(s);
    MixBijective(t);
  }

  lemma FinalInjective(s: State, t: State)
    requires Final(s) == Final(t)
    ensures s == t
  {
    hide *;
    FinalBijective(s);
    FinalBijective(t);
  }

  lemma BlockInjective(s: State, t: State, k: Key)
    requires AddBlock(s, k) == AddBlock(t, k)
    ensures s == t
  {
    hide Add, WordAt;
    AddFromApart(s.a, t.a, WordAt(k, 0));
    AddFromApart(s.b, t.b, WordAt(k, 4));
    AddFromApart(s.c, t.c, WordAt(k, 8));
  }

  lemma TailInjective(s: State, t: State, k: Key)
    requires |k| < 12 && AddTail(s, k) == AddTail(t, k)
    ensures s == t
  {
    hide Add, WordAt, SumWord;
    AddFromApart(s.a, t.a, WordAt(k, 0));
    AddFromApart(s.b, t.b, WordAt(k, 4));
    AddFromApart(s.c, t.c, SumWord(0, At(k, 8), At(k, 9), At(k, 10)));
  }

  /** What follows keeps different states different. */
  lemma {:induction false} AbsorbInjective(s: State, t: State, k: Key)
    requires Absorb(s, k) == Absorb(t, k)
    ensures s == t
    decreases |k|
  {
    hide Mix, AddBlock;
    if |k| >= 12 {
      AbsorbInjective(Mix(AddBlock(s, k[..12])), Mix(AddBlock(t, k[..12])), k[12..]);
      MixInjective(AddBlock(s, k[..12]), AddBlock(t, k[..12]));
      BlockInjective(s, t, k[..12]);
    }
  }

  lemma DigestInjective(s: State, t: State, k: Key)
    requires Digest(s, k) == Digest(t, k)
    ensures s == t
  {
    hide Final, AddTail, Absorb, Rest;
    FinalInjective(AddTail(Absorb(s, k), Rest(k)), AddTail(Absorb(t, k), Rest(k)));
    TailInjective(Absorb(s, k), Absorb(t, k), Rest(k));
    AbsorbInjective(s, t, k);
  }

  lemma WordApart(k: Key, l: Key, i: nat)
    requires WordAt(k, i) == WordAt(l, i)
    ensures At(k, i) == At(l, i) && At(k, i + 1) == At(l, i + 1) && At(k, i + 2) == At(l, i + 2) && At(k, i + 3) == At(l, i + 3)
  {
    hide SumWord;
    SumInjective(At(k, i), At(k, i + 1), At(k, i + 2), At(k, i + 3), At(l, i), At(l, i + 1), At(l, i + 2), At(l, i + 3));
  }

  lemma BlocksApart(s: State, k: Key, l: Key)
    requires |k| == |l| == 12 && AddBlock(s, k) == AddBlock(s, l)
    ensures k == l
  {
    hide Add, WordAt;
    AddKeepsApart(s.a, WordAt(k, 0), WordAt(l, 0));
    AddKeepsApart(s.b, WordAt(k, 4), WordAt(l, 4));
    AddKeepsApart(s.c, WordAt(k, 8), WordAt(l, 8));
    WordApart(k, l, 0);
    WordApart(k, l, 4);
    WordApart(k, l, 8);
    assert forall i :: 0 <= i < 12 ==> At(k, i) == k[i] && At(l, i) == l[i];
  }

  lemma TailsApart(s: State, k: Key, l: Key)
    requires |k| == |l| < 12 && AddTail(s, k) == AddTail(s, l)
    ensures k == l
  {
    hide Add, WordAt, SumWord;
    AddKeepsApart(s.a, WordAt(k, 0), WordAt(l, 0));
    AddKeepsApart(s.b, WordAt(k, 4), WordAt(l, 4));
    AddKeepsApart(s.c, SumWord(0, At(k, 8), At(k, 9), At(k, 10)), SumWord(0, At(l, 8), At(l, 9), At(l, 10)));
    WordApart(k, l, 0);
    WordApart(k, l, 4);
    SumInjective(0, At(k, 8), At(k, 9), At(k, 10), 0, At(l, 8), At(l, 9), At(l, 10));
    assert forall i :: 0 <= i < |k| ==> At(k, i) == k[i] && At(l, i) == l[i];
  }

  /** Whole blocks in front are absorbed first. */
  lemma {:induction false} AbsorbFront(s: State, p: Key, k: Key)
    requires |p| % 12 == 0
    ensures Absorb(s, p + k) == Absorb(Absorb(s, p), k) && Rest(p + k) == Rest(k)
    decreases |p|
  {
    hide Mix, AddBlock;
    if p == [] {
      assert p + k == k;
    } else {
      assert (p + k)[..12] == p[..12] && (p + k)[12..] == p[12..] + k;
      AbsorbFront(Mix(AddBlock(s, p[..12])), p[12..], k);
    }
  }

  lemma DigestFront(s: State, p: Key, k: Key)
    requires |p| % 12 == 0
    ensures Digest(s, p + k) == Digest(Absorb(s, p), k)
  {
    hide Absorb, Rest, Final, AddTail;
    AbsorbFront(s, p, k);
  }

  /** Keys of one length that differ in exactly one twelve-byte block end in different states. */
  lemma OneBlockApart(s: State, p: Key, x: Key, y: Key, rest: Key)
    requires |p| % 12 == 0 && |x| == |y| == 12 && x != y
    ensures Digest(s, p + x + rest) != Digest(s, p + y + rest)
  {
    hide *;
    var t := Absorb(s, p);
    assert p + x + rest == p + (x + rest) && p + y + rest == p + (y + rest);
    if Digest(s, p + x + rest) == Digest(s, p + y + rest) {
      DigestFront(s, p, x + rest);
      DigestFront(s, p, y + rest);
      DigestFront(t, x, rest);
      DigestFront(t, y, rest);
      DigestInjective(Absorb(t, x), Absorb(t, y), rest);
      OneBlock(t, x);
      OneBlock(t, y);
      MixInjective(AddBlock(t, x), AddBlock(t, y));
      BlocksApart(t, x, y);
    }
  }

  lemma OneBlock(s: State, x: Key)
    requires |x| == 12
    ensures Absorb(s, x) == Mix(AddBlock(s, x))
  {
    hide Mix, AddBlock;
    assert x[..12] == x && x[12..] == [];
  }

  /** Keys of one length that differ only in the tail end in different states. */
  lemma TailOnlyApart(s: State, p: Key, x: Key, y: Key)
    requires |p| % 12 == 0 && |x| == |y| < 12 && x != y
    ensures Digest(s, p + x) != Digest(s, p + y)
  {
    var t := Absorb(s, p);
    if Digest(s, p + x) == Digest(s, p + y) {
      DigestFront(s, p, x);
      DigestFront(s, p, y);
      ShortDigest(t, x);
      ShortDigest(t, y);
      hide Digest, Absorb, Final, AddTail;
      FinalInjective(AddTail(t, x), AddTail(t, y));
      TailsApart(t, x, y);
    }
  }

  lemma ShortDigest(s: State, x: Key)
    requires |x| < 12
    ensures Digest(s, x) == Final(AddTail(s, x))
  {
    hide Final, AddTail;
  }

  // ---- the length counts --------------------------------------------------------------------------------------------

  /** Keys whose lengths are less than 2^32 apart start differently. */
  lemma StartsApart(n: nat, m: nat)
    requires n < m < n + 0x1_0000_0000
    ensures Start(n) != Start(m)
  {
    hide OfNum, Num;
    assert Num(Start(n).a) == (0x9e3779b9 + n + 3923095) % 0x1_0000_0000;
    assert Num(Start(m).a) == (0x9e3779b9 + m + 3923095) % 0x1_0000_0000;
  }

  /** A zero byte in the last block adds nothing to the state by itself. */
  lemma ZerosAddNothing(s: State, x: Key, z: Key)
    requires |x| + |z| < 12 && forall i :: 0 <= i < |z| ==> z[i] == 0
    ensures AddTail(s, x + z) == AddTail(s, x)
  {
    hide Add, SumWord;
    assert forall i: nat :: At(x + z, i) == At(x, i);
  }

  /** Zero bytes appended to a key change the state it ends in: they count through the length. */
  lemma ZerosCount(p: Key, x: Key, z: Key)
    requires |p| % 12 == 0 && |x| + |z| < 12 && z != [] && forall i :: 0 <= i < |z| ==> z[i] == 0
    ensures Digest(Start(|p + x|), p + x) != Digest(Start(|p + x + z|), p + x + z)
  {
    hide *;
    var t := Start(|p + x + z|);
    assert p + x + z == p + (x + z);
    StartsApart(|p + x|, |p + x + z|);
    DigestFront(t, p, x);
    DigestFront(t, p, x + z);
    ShortDigest(Absorb(t, p), x);
    ShortDigest(Absorb(t, p), x + z);
    ZerosAddNothing(Absorb(t, p), x, z);
    if Digest(Start(|p + x|), p + x) == Digest(t, p + x) {
      DigestInjective(Start(|p + x|), t, p + x);
    }
  }
}
