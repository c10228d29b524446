/** Hashes known by value. */
module HashKnown {
  import opened Bits
  import opened HashWord
  import opened Hash
  import opened Quads
  import opened QuadWords
  import opened HashNumbers

  // ---- words by value ----------------------------------------------------------------------------------------------

  lemma PowerIs(r: nat)
    requires Rotation(r)
    ensures Power(r) == Pow2(r) && Power(32 - r) == Pow2(32 - r)
  {
    assert Pow2(4) == 0x10;
    assert Pow2(8) == 0x100;
    assert Pow2(11) == 0x800;
    assert Pow2(14) == 0x4000;
    assert Pow2(18) == 0x4_0000;
    assert Pow2(21) == 0x20_0000;
    assert Pow2(25) == 0x200_0000;
    assert Pow2(28) == 0x1000_0000;
  }

  lemma Split(n: nat, p: nat, high: nat, low: nat)
    requires p > 0 && low < p && n == low + p * high
    ensures n / p == high && n % p == low
  {
    var d := n / p - high;
    assert (n / p) * p == d * p + high * p;
    Inside(d, p);
  }

  lemma Inside(d: int, p: int)
    requires p > 0
    ensures 0 - p < d * p < p <==> d == 0
  {
    assert d >= 1 ==> d * p >= p;
    assert d <= -1 ==> d * p <= 0 - p;
  }

  /** Rotating moves the high part below the low one. */
  lemma RotValue(x: Word, r: nat)
    requires Rotation(r)
    ensures Num(Rot(x, r)) == Num(x) / Power(32 - r) + Power(r) * (Num(x) % Power(32 - r))
  {
    var low, high := x[..32 - r], x[32 - r..];
    assert x == low + high;
    ToNatConcat(low, high);
    ToNatConcat(high, low);
    PowerIs(r);
    DoubledIs(ToNat(high), 32 - r);
    DoubledIs(ToNat(low), r);
    hide ToNat, Doubled, Pow2, Power;
    Split(Num(x), Pow2(32 - r), ToNat(high), ToNat(low));
  }

  lemma {:induction false} DoubledIs(n: nat, k: nat)
    ensures Doubled(n, k) == Pow2(k) * n
    decreases k
  {
    if k > 0 {
      DoubledIs(n, k - 1);
      assert (2 * Pow2(k - 1)) * n == 2 * (Pow2(k - 1) * n);
    }
  }

  lemma RotTo(x: Word, r: nat, high: nat, low: nat)
    requires Cut(Num(x), r, high, low)
    ensures Num(Rot(x, r)) == high + Power(r) * low
  {
    hide Rot, Num, Power;
    RotValue(x, r);
    Split(Num(x), Power(32 - r), high, low);
  }

  // ---- steps by value ----------------------------------------------------------------------------------------------

  lemma XorTo(x: Word, y: Word, p: Quad, q: Quad)
    requires Num(x) == N(p) && Num(y) == N(q)
    ensures Num(Xor(x, y)) == N(QuadXor(p, q))
  {
    hide W, N, Num, Xor, QuadXor;
    WordValue(p);
    WordValue(q);
    WordValue(QuadXor(p, q));
    NumInjective(x, W(p));
    NumInjective(y, W(q));
    WordXor(p, q);
  }

  lemma StirTo(x: Word, z: Word, r: nat, p: Quad, q: Quad, high: nat, low: nat, out: Quad)
    requires StirsTo(p, q, r, high, low, out) && Num(x) == N(p) && Num(z) == N(q)
    ensures 0 < r < 32 && Num(Stir(x, z, r)) == N(out)
  {
    hide N, Num, Xor, QuadXor, Rot, Sub, Power;
    XorTo(x, z, p, q);
    RotTo(z, r, high, low);
    QuadSmall(out);
    Minus(N(out), Num(Rot(z, r)));
  }

  lemma Minus(out: nat, n: nat)
    requires out < 0x1_0000_0000 && n < 0x1_0000_0000
    ensures ((out + n) % 0x1_0000_0000 + 0x1_0000_0000 - n) % 0x1_0000_0000 == out
  {
  }

  /** The numbers of a state. */
  predicate Has(s: State, a: Quad, b: Quad, c: Quad) { Num(s.a) == N(a) && Num(s.b) == N(b) && Num(s.c) == N(c) }

  lemma SumTo(u: Word, v: Word, x: Quad, y: Quad, sum: Quad)
    requires Num(u) == N(x) && Num(v) == N(y) && SumsTo(x, y, sum)
    ensures Num(Add(u, v)) == N(sum)
  {
    hide N, Num, Add;
    QuadSmall(sum);
  }

  lemma DiffTo(u: Word, v: Word, x: Quad, y: Quad, diff: Quad)
    requires Num(u) == N(x) && Num(v) == N(y) && SumsTo(diff, y, x)
    ensures Num(Sub(u, v)) == N(diff)
  {
    hide N, Num, Sub;
    QuadSmall(x);
    QuadSmall(diff);
  }

  lemma LineTo(s: State, x: Quad, y: Quad, z: Quad, r: nat, high: nat, low: nat, diff: Quad, turned: Quad, sum: Quad)
    requires Has(s, x, y, z) && LinesTo(x, y, z, r, high, low, diff, turned, sum)
    ensures 0 < r < 32 && Has(Left(Line(s, r)), y, sum, QuadXor(diff, turned))
  {
    hide N, Num, Xor, QuadXor, Rot, Sub, Add, Power, SumsTo;
    RotTo(s.c, r, high, low);
    DiffTo(s.a, s.c, x, z, diff);
    SumTo(s.c, s.b, z, y, sum);
    XorTo(Sub(s.a, s.c), Rot(s.c, r), diff, turned);
  }

  lemma StartTo(len: nat, q: Quad)
    requires (0x9e3779b9 + len + 3923095) % 0x1_0000_0000 == N(q)
    ensures Has(Start(len), q, q, q)
  {
    hide OfNum, Num;
  }

  lemma WordAtTo(k: Key, i: nat)
    ensures Num(WordAt(k, i))
         == At(k, i) as nat + 0x100 * At(k, i + 1) as nat
          + 0x1_0000 * At(k, i + 2) as nat + 0x100_0000 * At(k, i + 3) as nat
  {
    hide SumWord, Load, Num;
    LoadIsSum(At(k, i), At(k, i + 1), At(k, i + 2), At(k, i + 3));
    LoadNumber(At(k, i), At(k, i + 1), At(k, i + 2), At(k, i + 3));
  }

  lemma TailWordTo(k: Key)
    ensures Num(SumWord(0, At(k, 8), At(k, 9), At(k, 10)))
         == 0x100 * At(k, 8) as nat + 0x1_0000 * At(k, 9) as nat + 0x100_0000 * At(k, 10) as nat
  {
    hide SumWord, Load, Num;
    LoadIsSum(0, At(k, 8), At(k, 9), At(k, 10));
    LoadNumber(0, At(k, 8), At(k, 9), At(k, 10));
  }

  // ---- the empty key -----------------------------------------------------------------------------------------------

  /** The final scramble of the empty key. */
  lemma EmptyFinal(s: State)
    requires Has(s, X00, X00, X00)
    ensures Has(Final(s), X05, X06, X07)
  {
    hide Stir, Num, N, StirsTo;
    EmptyFinalNumbers1();
    EmptyFinalNumbers2();
    EmptyFinalNumbers3();
    EmptyFinalNumbers4();
    StirTo(s.c, s.b, 14, X00, X00, 0x0000279c, 0x00035650, X01);
    var c1 := Stir(s.c, s.b, 14);
    StirTo(s.a, c1, 11, X00, X01, 0x00000153, 0x000bd864, X02);
    var a1 := Stir(s.a, c1, 11);
    StirTo(s.b, a1, 25, X00, X02, 0x00aaaad9, 0x00000061, X03);
    var b1 := Stir(s.b, a1, 25);
    StirTo(c1, b1, 16, X01, X03, 0x0000087b, 0x00008fd8, X04);
    var c2 := Stir(c1, b1, 16);
    StirTo(a1, c2, 4, X02, X04, 0x00000009, 0x02384f41, X05);
    var a2 := Stir(a1, c2, 4);
    StirTo(b1, a2, 14, X03, X05, 0x000028fa, 0x00002f87, X06);
    var b2 := Stir(b1, a2, 14);
    StirTo(c2, b2, 24, X04, X06, 0x009fb1b7, 0x00000065, X07);
  }

  lemma NothingAdded(s: State)
    ensures AddTail(Absorb(s, []), Rest([])) == s
  {
    hide Add, SumWord;
    AddSum(s.a);
    AddSum(s.b);
    AddSum(s.c);
  }

  /** The hash of the empty key, both halves. */
  lemma EmptyKey()
    ensures Num(HashOf([])) == 0xa7ea466d && Num(ExtendedOf([], Zero(), Zero()).0) == 0x9fb1b765
  {
    hide Final, Add, SumWord, Num, Start;
    StartTo(0, X00);
    NothingAdded(Start(0));
    EmptyFinal(Start(0));
  }

  // ---- one block and eleven bytes behind it, under a seed ----------------------------------------------------------

  /** The bytes 1 to 23. */
  function Rising(): (k: Key)
    ensures |k| == 23 && forall i :: 0 <= i < 23 ==> k[i] as nat == i + 1
  {
    [1, 2, 3, 4, 5, 6, 7, 8, 9, 10, 11, 12, 13, 14, 15, 16, 17, 18, 19, 20, 21, 22, 23]
  }

  /** The seed mixed in. */
  lemma SeedMix(s: State)
    requires Has(s, X10, X11, X12)
    ensures Has(Mix(s), X29, X33, X34)
  {
    hide Line, Num, N, LinesTo, QuadXor;
    SeedMixNumbers1();
    SeedMixNumbers2();
    SeedMixNumbers3();
    LineTo(s, X10, X11, X12, 4, 0x00000009, 0x0e735667, X08, X09, X13);
    var s1 := Left(Line(s, 4));
    LineTo(s1, X11, X13, X14, 6, 0x00000039, 0x03356678, X15, X16, X17);
    var s2 := Left(Line(s1, 6));
    LineTo(s2, X13, X17, X18, 8, 0x0000007a, 0x006471c8, X19, X20, X21);
    var s3 := Left(Line(s2, 8));
    LineTo(s3, X17, X21, X22, 16, 0x0000a6f3, 0x0000f372, X23, X24, X25);
    var s4 := Left(Line(s3, 16));
    LineTo(s4, X21, X25, X26, 19, 0x000472d5, 0x00001925, X27, X28, X29);
    var s5 := Left(Line(s4, 19));
    LineTo(s5, X25, X29, X30, 4, 0x0000000d, 0x0909b93e, X31, X32, X33);
  }

  /** The block mixed in. */
  lemma BlockMix(s: State)
    requires Has(s, X37, X38, X39)
    ensures Has(Mix(s), X56, X60, X61)
  {
    hide Line, Num, N, LinesTo, QuadXor;
    BlockMixNumbers1();
    BlockMixNumbers2();
    BlockMixNumbers3();
    LineTo(s, X37, X38, X39, 4, 0x00000000, 0x08fc36b2, X35, X36, X40);
    var s1 := Left(Line(s, 4));
    LineTo(s1, X38, X40, X41, 6, 0x00000010, 0x011697d6, X42, X43, X44);
    var s2 := Left(Line(s1, 6));
    LineTo(s2, X40, X44, X45, 8, 0x00000036, 0x006cac84, X46, X47, X48);
    var s3 := Left(Line(s2, 8));
    LineTo(s3, X44, X48, X49, 16, 0x0000ebc3, 0x0000ff2e, X50, X51, X52);
    var s4 := Left(Line(s3, 16));
    LineTo(s4, X48, X52, X53, 19, 0x00076001, 0x00000b87, X54, X55, X56);
    var s5 := Left(Line(s4, 19));
    LineTo(s5, X52, X56, X57, 4, 0x00000001, 0x0560206e, X58, X59, X60);
  }

  /** The final scramble. */
  lemma RisingFinal(s: State)
    requires Has(s, X65, X63, X62)
    ensures Has(Final(s), X69, X70, X71)
  {
    hide Stir, Num, N, StirsTo;
    RisingFinalNumbers1();
    RisingFinalNumbers2();
    RisingFinalNumbers3();
    RisingFinalNumbers4();
    StirTo(s.c, s.b, 14, X62, X63, 0x00000da5, 0x0002c92a, X64);
    var c1 := Stir(s.c, s.b, 14);
    StirTo(s.a, c1, 11, X65, X64, 0x0000047f, 0x00171ad8, X66);
    var a1 := Stir(s.a, c1, 11);
    StirTo(s.b, a1, 25, X63, X66, 0x01b3ddf3, 0x00000061, X67);
    var b1 := Stir(s.b, a1, 25);
    StirTo(c1, b1, 16, X64, X67, 0x00002bc4, 0x000052d8, X68);
    var c2 := Stir(c1, b1, 16);
    StirTo(a1, c2, 4, X66, X68, 0x00000005, 0x015b1c3c, X69);
    var a2 := Stir(a1, c2, 4);
    StirTo(b1, a2, 14, X67, X69, 0x00001cc1, 0x00002218, X70);
    var b2 := Stir(b1, a2, 14);
    StirTo(c2, b2, 24, X68, X70, 0x00503a53, 0x000000ff, X71);
  }

  /** The seed 1 above 2, as a block of its own. */
  lemma RisingSeeded(s: State, hi: Word, lo: Word)
    requires s == Start(23) && Num(hi) == 1 && Num(lo) == 2
    ensures Has(Seeded(s, hi, lo), X29, X33, X34)
  {
    hide Start, Mix, Num, N, Add;
    SeedNumbers();
    QuadSmall(X10);
    QuadSmall(X11);
    StartTo(23, X12);
    ZeroNumber();
    SeedMix(State(Add(s.a, hi), Add(s.b, lo), s.c));
  }

  lemma ZeroNumber()
    ensures Num(Zero()) == 0
  {
    ToNatZeros(32);
  }

  lemma RisingBlock(s: State, k: Key)
    requires Has(s, X29, X33, X34) && |k| == 12 && forall i :: 0 <= i < 12 ==> k[i] as nat == i + 1
    ensures Has(AddBlock(s, k), X37, X38, X39)
  {
    hide Num, WordAt, N, Add;
    BlockNumbers();
    QuadSmall(X37);
    QuadSmall(X38);
    QuadSmall(X39);
    WordAtTo(k, 0);
    WordAtTo(k, 4);
    WordAtTo(k, 8);
  }

  lemma RisingTail(s: State, k: Key)
    requires Has(s, X56, X60, X61) && |k| == 11 && forall i :: 0 <= i < 11 ==> k[i] as nat == i + 13
    ensures Has(AddTail(s, k), X65, X63, X62)
  {
    hide Num, WordAt, SumWord, N, Add;
    TailNumbers();
    QuadSmall(X65);
    QuadSmall(X63);
    QuadSmall(X62);
    WordAtTo(k, 0);
    WordAtTo(k, 4);
    TailWordTo(k);
  }

  lemma OneBlockAndRest(s: State, k: Key)
    requires 12 <= |k| < 24
    ensures Digest(s, k) == Final(AddTail(Mix(AddBlock(s, k[..12])), k[12..]))
  {
    hide Final, AddTail, Mix, AddBlock;
    assert Absorb(s, k) == Absorb(Mix(AddBlock(s, k[..12])), k[12..]);
    assert Rest(k) == Rest(k[12..]);
  }

  /** The bytes 1 to 23 under the seed 1 above 2, both halves: every part of the hash takes part in it. */
  lemma RisingKey(k: Key, hi: Word, lo: Word)
    requires k == Rising() && Num(hi) == 1 && Num(lo) == 2
    ensures var r := ExtendedOf(k, hi, lo); Num(r.0) == 0x503a53ff && Num(r.1) == 0x02111570
  {
    hide Final, Mix, AddBlock, AddTail, Seeded, Num, N, Start, Digest;
    var s := Seeded(Start(23), hi, lo);
    RisingSeeded(Start(23), hi, lo);
    OneBlockAndRest(s, k);
    RisingBlock(s, k[..12]);
    BlockMix(AddBlock(s, k[..12]));
    RisingTail(Mix(AddBlock(s, k[..12])), k[12..]);
    RisingFinal(AddTail(Mix(AddBlock(s, k[..12])), k[12..]));
    ResultNumbers();
  }
}
