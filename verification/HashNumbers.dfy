/** The lines of the hash in numbers: xor is machine xor, everything else plain arithmetic. */
module HashNumbers {
  import opened Quads

  /** Powers of two by value, for the rotations there are. */
  function Power(k: nat): (p: nat)
    ensures p > 0
  {
    match k
    case 4 => 0x10
    case 6 => 0x40
    case 7 => 0x80
    case 8 => 0x100
    case 11 => 0x800
    case 13 => 0x2000
    case 14 => 0x4000
    case 16 => 0x1_0000
    case 18 => 0x4_0000
    case 19 => 0x8_0000
    case 21 => 0x20_0000
    case 24 => 0x100_0000
    case 25 => 0x200_0000
    case 26 => 0x400_0000
    case 28 => 0x1000_0000
    case _ => 1
  }

  predicate Rotation(r: nat) { r in {4, 6, 8, 11, 14, 16, 19, 24, 25} }

  /** A number's high and low part, cut where a rotation cuts it. */
  predicate Cut(n: nat, r: nat, high: nat, low: nat) {
    Rotation(r) && low < Power(32 - r) && n == low + Power(32 - r) * high
  }

  /** A sum modulo 2^32. */
  predicate Sums(x: nat, y: nat, sum: nat) { x + y == sum || x + y == sum + 0x1_0000_0000 }

  /** One line of the final scramble, in numbers. */
  predicate StirsTo(p: Quad, q: Quad, r: nat, high: nat, low: nat, out: Quad) {
    Cut(N(q), r, high, low) && Sums(N(out), high + Power(r) * low, N(QuadXor(p, q)))
  }

  predicate SumsTo(x: Quad, y: Quad, sum: Quad) { Sums(N(x), N(y), N(sum)) }

  /** One line of the mixing step, in numbers. */
  predicate LinesTo(x: Quad, y: Quad, z: Quad, r: nat, high: nat, low: nat, diff: Quad, turned: Quad, sum: Quad) {
    Cut(N(z), r, high, low) && high + Power(r) * low == N(turned) && SumsTo(diff, z, x) && SumsTo(z, y, sum)
  }

  // ---- the words that come up below --------------------------------------------------------------------------------

  const X00 := Quad(0x9e, 0x73, 0x56, 0x50)
  const X01 := Quad(0x2a, 0x6b, 0xd8, 0x64)
  const X02 := Quad(0x55, 0x55, 0x6c, 0xe1)
  const X03 := Quad(0x08, 0x7b, 0x8f, 0xd8)
  const X04 := Quad(0x92, 0x38, 0x4f, 0x41)
  const X05 := Quad(0xa3, 0xe8, 0x2f, 0x87)
  const X06 := Quad(0x9f, 0xb1, 0xb7, 0x65)
  const X07 := Quad(0xa7, 0xea, 0x46, 0x6d)
  const X08 := Quad(0x00, 0x00, 0x00, 0x01)
  const X09 := Quad(0xe7, 0x35, 0x66, 0x79)
  const X10 := Quad(0x9e, 0x73, 0x56, 0x68)
  const X11 := Quad(0x9e, 0x73, 0x56, 0x69)
  const X12 := Quad(0x9e, 0x73, 0x56, 0x67)
  const X13 := Quad(0x3c, 0xe6, 0xac, 0xd0)
  const X14 := Quad(0xe7, 0x35, 0x66, 0x78)
  const X15 := Quad(0xb7, 0x3d, 0xef, 0xf1)
  const X16 := Quad(0xcd, 0x59, 0x9e, 0x39)
  const X17 := Quad(0x24, 0x1c, 0x13, 0x48)
  const X18 := Quad(0x7a, 0x64, 0x71, 0xc8)
  const X19 := Quad(0xc2, 0x82, 0x3b, 0x08)
  const X20 := Quad(0x64, 0x71, 0xc8, 0x7a)
  const X21 := Quad(0x9e, 0x80, 0x85, 0x10)
  const X22 := Quad(0xa6, 0xf3, 0xf3, 0x72)
  const X23 := Quad(0x7d, 0x28, 0x1f, 0xd6)
  const X24 := Quad(0xf3, 0x72, 0xa6, 0xf3)
  const X25 := Quad(0x45, 0x74, 0x78, 0x82)
  const X26 := Quad(0x8e, 0x5a, 0xb9, 0x25)
  const X27 := Quad(0x10, 0x25, 0xcb, 0xeb)
  const X28 := Quad(0xc9, 0x2c, 0x72, 0xd5)
  const X29 := Quad(0xd3, 0xcf, 0x31, 0xa7)
  const X30 := Quad(0xd9, 0x09, 0xb9, 0x3e)
  const X31 := Quad(0x6c, 0x6a, 0xbf, 0x44)
  const X32 := Quad(0x90, 0x9b, 0x93, 0xed)
  const X33 := Quad(0xac, 0xd8, 0xea, 0xe5)
  const X34 := Quad(0xfc, 0xf1, 0x2c, 0xa9)
  const X35 := Quad(0xce, 0xd5, 0xfc, 0xf6)
  const X36 := Quad(0x8f, 0xc3, 0x6b, 0x20)
  const X37 := Quad(0xd7, 0xd2, 0x33, 0xa8)
  const X38 := Quad(0xb4, 0xdf, 0xf0, 0xea)
  const X39 := Quad(0x08, 0xfc, 0x36, 0xb2)
  const X40 := Quad(0xbd, 0xdc, 0x27, 0x9c)
  const X41 := Quad(0x41, 0x16, 0x97, 0xd6)
  const X42 := Quad(0x73, 0xc9, 0x59, 0x14)
  const X43 := Quad(0x45, 0xa5, 0xf5, 0x90)
  const X44 := Quad(0xfe, 0xf2, 0xbf, 0x72)
  const X45 := Quad(0x36, 0x6c, 0xac, 0x84)
  const X46 := Quad(0x87, 0x6f, 0x7b, 0x18)
  const X47 := Quad(0x6c, 0xac, 0x84, 0x36)
  const X48 := Quad(0x35, 0x5f, 0x6b, 0xf6)
  const X49 := Quad(0xeb, 0xc3, 0xff, 0x2e)
  const X50 := Quad(0x13, 0x2e, 0xc0, 0x44)
  const X51 := Quad(0xff, 0x2e, 0xeb, 0xc3)
  const X52 := Quad(0x21, 0x23, 0x6b, 0x24)
  const X53 := Quad(0xec, 0x00, 0x2b, 0x87)
  const X54 := Quad(0x49, 0x5f, 0x40, 0x6f)
  const X55 := Quad(0x5c, 0x3f, 0x60, 0x01)
  const X56 := Quad(0x0d, 0x23, 0x96, 0xab)
  const X57 := Quad(0x15, 0x60, 0x20, 0x6e)
  const X58 := Quad(0x0b, 0xc3, 0x4a, 0xb6)
  const X59 := Quad(0x56, 0x02, 0x06, 0xe1)
  const X60 := Quad(0x22, 0x83, 0xb7, 0x19)
  const X61 := Quad(0x5d, 0xc1, 0x4c, 0x57)
  const X62 := Quad(0x74, 0xd7, 0x61, 0x57)
  const X63 := Quad(0x36, 0x96, 0xc9, 0x2a)
  const X64 := Quad(0x8f, 0xf7, 0x1a, 0xd8)
  const X65 := Quad(0x1d, 0x32, 0xa4, 0xb8)
  const X66 := Quad(0xd9, 0xee, 0xf9, 0xe1)
  const X67 := Quad(0x2b, 0xc4, 0x52, 0xd8)
  const X68 := Quad(0x51, 0x5b, 0x1c, 0x3c)
  const X69 := Quad(0x73, 0x04, 0x22, 0x18)
  const X70 := Quad(0x50, 0x3a, 0x53, 0xff)
  const X71 := Quad(0x02, 0x11, 0x15, 0x70)
  const X72 := Quad(0x00, 0x00, 0x00, 0x02)
  const X73 := Quad(0x04, 0x03, 0x02, 0x01)
  const X74 := Quad(0x08, 0x07, 0x06, 0x05)
  const X75 := Quad(0x0c, 0x0b, 0x0a, 0x09)
  const X76 := Quad(0x10, 0x0f, 0x0e, 0x0d)
  const X77 := Quad(0x14, 0x13, 0x12, 0x11)
  const X78 := Quad(0x17, 0x16, 0x15, 0x00)

  lemma EmptyFinalNumbers1()
    ensures StirsTo(X00, X00, 14, 0x0000279c, 0x00035650, X01)
    ensures StirsTo(X00, X01, 11, 0x00000153, 0x000bd864, X02)
  {
  }

  lemma EmptyFinalNumbers2()
    ensures StirsTo(X00, X02, 25, 0x00aaaad9, 0x00000061, X03)
    ensures StirsTo(X01, X03, 16, 0x0000087b, 0x00008fd8, X04)
  {
  }

  lemma EmptyFinalNumbers3()
    ensures StirsTo(X02, X04, 4, 0x00000009, 0x02384f41, X05)
    ensures StirsTo(X03, X05, 14, 0x000028fa, 0x00002f87, X06)
  {
  }

  lemma EmptyFinalNumbers4()
    ensures StirsTo(X04, X06, 24, 0x009fb1b7, 0x00000065, X07)
  {
  }

  lemma SeedMixNumbers1()
    ensures LinesTo(X10, X11, X12, 4, 0x00000009, 0x0e735667, X08, X09, X13) && QuadXor(X08, X09) == X14
    ensures LinesTo(X11, X13, X14, 6, 0x00000039, 0x03356678, X15, X16, X17) && QuadXor(X15, X16) == X18
  {
  }

  lemma SeedMixNumbers2()
    ensures LinesTo(X13, X17, X18, 8, 0x0000007a, 0x006471c8, X19, X20, X21) && QuadXor(X19, X20) == X22
    ensures LinesTo(X17, X21, X22, 16, 0x0000a6f3, 0x0000f372, X23, X24, X25) && QuadXor(X23, X24) == X26
  {
  }

  lemma SeedMixNumbers3()
    ensures LinesTo(X21, X25, X26, 19, 0x000472d5, 0x00001925, X27, X28, X29) && QuadXor(X27, X28) == X30
    ensures LinesTo(X25, X29, X30, 4, 0x0000000d, 0x0909b93e, X31, X32, X33) && QuadXor(X31, X32) == X34
  {
  }

  lemma BlockMixNumbers1()
    ensures LinesTo(X37, X38, X39, 4, 0x00000000, 0x08fc36b2, X35, X36, X40) && QuadXor(X35, X36) == X41
    ensures LinesTo(X38, X40, X41, 6, 0x00000010, 0x011697d6, X42, X43, X44) && QuadXor(X42, X43) == X45
  {
  }

  lemma BlockMixNumbers2()
    ensures LinesTo(X40, X44, X45, 8, 0x00000036, 0x006cac84, X46, X47, X48) && QuadXor(X46, X47) == X49
    ensures LinesTo(X44, X48, X49, 16, 0x0000ebc3, 0x0000ff2e, X50, X51, X52) && QuadXor(X50, X51) == X53
  {
  }

  lemma BlockMixNumbers3()
    ensures LinesTo(X48, X52, X53, 19, 0x00076001, 0x00000b87, X54, X55, X56) && QuadXor(X54, X55) == X57
    ensures LinesTo(X52, X56, X57, 4, 0x00000001, 0x0560206e, X58, X59, X60) && QuadXor(X58, X59) == X61
  {
  }

  lemma RisingFinalNumbers1()
    ensures StirsTo(X62, X63, 14, 0x00000da5, 0x0002c92a, X64)
    ensures StirsTo(X65, X64, 11, 0x0000047f, 0x00171ad8, X66)
  {
  }

  lemma RisingFinalNumbers2()
    ensures StirsTo(X63, X66, 25, 0x01b3ddf3, 0x00000061, X67)
    ensures StirsTo(X64, X67, 16, 0x00002bc4, 0x000052d8, X68)
  {
  }

  lemma RisingFinalNumbers3()
    ensures StirsTo(X66, X68, 4, 0x00000005, 0x015b1c3c, X69)
    ensures StirsTo(X67, X69, 14, 0x00001cc1, 0x00002218, X70)
  {
  }

  lemma RisingFinalNumbers4()
    ensures StirsTo(X68, X70, 24, 0x00503a53, 0x000000ff, X71)
  {
  }

  lemma SeedNumbers()
    ensures (0x9e3779b9 + 23 + 3923095) % 0x1_0000_0000 == N(X12)
    ensures SumsTo(X12, X08, X10) && SumsTo(X12, X72, X11) && N(X08) == 1 && N(X72) == 2
  {
  }

  lemma BlockNumbers()
    ensures SumsTo(X29, X73, X37) && SumsTo(X33, X74, X38)
    ensures SumsTo(X34, X75, X39)
    ensures N(X73) == 0x04030201 && N(X74) == 0x08070605 && N(X75) == 0x0c0b0a09
  {
  }

  lemma TailNumbers()
    ensures SumsTo(X56, X76, X65) && SumsTo(X60, X77, X63)
    ensures SumsTo(X61, X78, X62)
    ensures N(X76) == 0x100f0e0d && N(X77) == 0x14131211 && N(X78) == 0x17161500
  {
  }

  lemma ResultNumbers()
    ensures N(X70) == 0x503a53ff && N(X71) == 0x02111570
  {
  }
}
