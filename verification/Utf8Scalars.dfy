/** Section 3 of RFC 3629: the strings the verifier accepts are the encodings of Unicode scalar values. */
module Utf8Scalars {
  import opened Utf8

  /** A Unicode scalar value, NUL excepted. */
  predicate Scalar(c: nat) { 0 < c <= 0x10FFFF && !(0xD800 <= c <= 0xDFFF) }

  /** The encoding, as numbers: the bits of the value six at a time, the rest in the lead byte. */
  function Encode(c: nat): seq<nat>
    requires c <= 0x10FFFF
  {
    if c < 0x80 then [c]
    else if c < 0x800 then [0xC0 + c / 64, 0x80 + c % 64]
    else if c < 0x1_0000 then [0xE0 + c / 4096, 0x80 + c / 64 % 64, 0x80 + c % 64]
    else [0xF0 + c / 262144, 0x80 + c / 4096 % 64, 0x80 + c / 64 % 64, 0x80 + c % 64]
  }

  function Nums(x: seq<Byte>): (v: seq<nat>)
    ensures |v| == |x| && forall i :: 0 <= i < |x| ==> v[i] == x[i] as nat
  {
    seq(|x|, i requires 0 <= i < |x| => x[i] as nat)
  }

  // ---- the grammar in numbers --------------------------------------------------------------------------------------

  predicate Trail(n: nat) { 0x80 <= n <= 0xBF }

  predicate RfcNums(v: seq<nat>) {
    if |v| == 1 then 0x01 <= v[0] <= 0x7F
    else if |v| == 2 then 0xC2 <= v[0] <= 0xDF && Trail(v[1])
    else if |v| == 3 then
      && (|| (v[0] == 0xE0 && 0xA0 <= v[1] <= 0xBF)
          || (0xE1 <= v[0] <= 0xEC && Trail(v[1]))
          || (v[0] == 0xED && 0x80 <= v[1] <= 0x9F)
          || (0xEE <= v[0] <= 0xEF && Trail(v[1])))
      && Trail(v[2])
    else if |v| == 4 then
      && (|| (v[0] == 0xF0 && 0x90 <= v[1] <= 0xBF)
          || (0xF1 <= v[0] <= 0xF3 && Trail(v[1]))
          || (v[0] == 0xF4 && 0x80 <= v[1] <= 0x8F))
      && Trail(v[2]) && Trail(v[3])
    else false
  }

  /** The value a character stands for. */
  function Decode(v: seq<nat>): nat
    requires RfcNums(v)
  {
    if |v| == 1 then v[0]
    else if |v| == 2 then 64 * (v[0] - 0xC0) + (v[1] - 0x80)
    else if |v| == 3 then 4096 * (v[0] - 0xE0) + 64 * (v[1] - 0x80) + (v[2] - 0x80)
    else 262144 * (v[0] - 0xF0) + 4096 * (v[1] - 0x80) + 64 * (v[2] - 0x80) + (v[3] - 0x80)
  }

  lemma SixBits(high: nat, low: nat)
    requires low < 64
    ensures (64 * high + low) / 64 == high && (64 * high + low) % 64 == low
  {
  }

  lemma ThreeDigits(a: nat, b: nat, d: nat)
    requires b < 64 && d < 64
    ensures var c := 4096 * a + 64 * b + d; c / 4096 == a && c / 64 % 64 == b && c % 64 == d && c / 64 == 64 * a + b
  {
    SixBits(64 * a + b, d);
    SixBits(a, b);
    var c := 4096 * a + 64 * b + d;
    assert c == 64 * (64 * a + b) + d;
    assert c / 4096 == c / 64 / 64;
  }

  lemma FourDigits(a: nat, b: nat, d: nat, e: nat)
    requires b < 64 && d < 64 && e < 64
    ensures var c := 262144 * a + 4096 * b + 64 * d + e;
            c / 262144 == a && c / 4096 % 64 == b && c / 64 % 64 == d && c % 64 == e
  {
    var c := 262144 * a + 4096 * b + 64 * d + e;
    ThreeDigits(64 * a + b, d, e);
    SixBits(a, b);
    assert c == 4096 * (64 * a + b) + 64 * d + e;
    assert c / 262144 == c / 4096 / 64;
  }

  lemma ThreeBack(v: seq<nat>)
    requires |v| == 3 && RfcNums(v)
    ensures Scalar(Decode(v)) && Encode(Decode(v)) == v
  {
    var c := Decode(v);
    ThreeDigits(v[0] - 0xE0, v[1] - 0x80, v[2] - 0x80);
    assert 0x800 <= c < 0x1_0000 && !(0xD800 <= c <= 0xDFFF);
    assert Encode(c) == [v[0], v[1], v[2]];
  }

  lemma FourBack(v: seq<nat>)
    requires |v| == 4 && RfcNums(v)
    ensures Scalar(Decode(v)) && Encode(Decode(v)) == v
  {
    var c := Decode(v);
    FourDigits(v[0] - 0xF0, v[1] - 0x80, v[2] - 0x80, v[3] - 0x80);
    assert 0x1_0000 <= c <= 0x10FFFF;
    assert Encode(c) == [v[0], v[1], v[2], v[3]];
  }

  /** Every character is the encoding of one scalar value. */
  lemma EncodeOfDecode(v: seq<nat>)
    requires RfcNums(v)
    ensures Scalar(Decode(v)) && Encode(Decode(v)) == v
  {
    if |v| == 3 {
      ThreeBack(v);
    } else if |v| == 4 {
      FourBack(v);
    } else if |v| == 2 {
      SixBits(v[0] - 0xC0, v[1] - 0x80);
      assert Encode(Decode(v)) == [v[0], v[1]];
    }
  }

  /** Every scalar value is encoded as a character. */
  lemma DecodeOfEncode(c: nat)
    requires Scalar(c)
    ensures RfcNums(Encode(c)) && Decode(Encode(c)) == c
  {
    if c >= 0x1_0000 {
      FourForth(c);
    } else if c >= 0x800 {
      ThreeForth(c);
    }
  }

  lemma ThreeForth(c: nat)
    requires Scalar(c) && 0x800 <= c < 0x1_0000
    ensures RfcNums(Encode(c)) && Decode(Encode(c)) == c
  {
    assert c / 64 == 64 * (c / 4096) + c / 64 % 64;
  }

  lemma FourForth(c: nat)
    requires Scalar(c) && c >= 0x1_0000
    ensures RfcNums(Encode(c)) && Decode(Encode(c)) == c
  {
    assert c / 64 == 64 * (c / 4096) + c / 64 % 64;
    assert c / 4096 == 64 * (c / 262144) + c / 4096 % 64;
  }

  // ---- the grammar in bytes ----------------------------------------------------------------------------------------

  lemma Order(a: Byte, b: Byte)
    ensures a <= b <==> a as nat <= b as nat
  {
  }

  lemma InRange(a: Byte, low: Byte, high: Byte)
    ensures low <= a <= high <==> low as nat <= a as nat <= high as nat
  {
    Order(low, a);
    Order(a, high);
  }

  lemma TrailByte(b: Byte)
    ensures Tail(b) <==> Trail(b as nat)
  {
    InRange(b, 0x80, 0xBF);
  }

  lemma OneTwo(x: seq<Byte>)
    requires |x| == 1 || |x| == 2
    ensures RfcChar(x) <==> RfcNums(Nums(x))
  {
    InRange(x[0], 0x01, 0x7F);
    InRange(x[0], 0xC2, 0xDF);
    if |x| == 2 { TrailByte(x[1]); }
  }

  lemma Three(x: seq<Byte>)
    requires |x| == 3
    ensures RfcChar(x) <==> RfcNums(Nums(x))
  {
    hide Tail;
    InRange(x[0], 0xE0, 0xE0);
    InRange(x[0], 0xE1, 0xEC);
    InRange(x[0], 0xED, 0xED);
    InRange(x[0], 0xEE, 0xEF);
    InRange(x[1], 0xA0, 0xBF);
    InRange(x[1], 0x80, 0x9F);
    TrailByte(x[1]);
    TrailByte(x[2]);
  }

  lemma Four(x: seq<Byte>)
    requires |x| == 4
    ensures RfcChar(x) <==> RfcNums(Nums(x))
  {
    hide Tail;
    InRange(x[0], 0xF0, 0xF0);
    InRange(x[0], 0xF1, 0xF3);
    InRange(x[0], 0xF4, 0xF4);
    InRange(x[1], 0x90, 0xBF);
    InRange(x[1], 0x80, 0x8F);
    TrailByte(x[1]);
    TrailByte(x[2]);
    TrailByte(x[3]);
  }

  lemma InNumbers(x: seq<Byte>)
    ensures RfcChar(x) <==> RfcNums(Nums(x))
  {
    if |x| == 3 { Three(x); } else if |x| == 4 { Four(x); } else if |x| == 1 || |x| == 2 { OneTwo(x); }
  }

  /** The characters are exactly the encodings of scalar values. */
  lemma CharIsEncoding(x: seq<Byte>)
    ensures RfcChar(x) <==> exists c: nat :: Scalar(c) && Nums(x) == Encode(c)
  {
    hide RfcChar, RfcNums, Encode, Decode;
    InNumbers(x);
    if RfcNums(Nums(x)) { EncodeOfDecode(Nums(x)); }
    if c: nat :| Scalar(c) && Nums(x) == Encode(c) { DecodeOfEncode(c); }
  }

  // ---- strings -----------------------------------------------------------------------------------------------------

  predicate Scalars(cs: seq<nat>) { forall i :: 0 <= i < |cs| ==> Scalar(cs[i]) }

  function EncodeAll(cs: seq<nat>): seq<nat>
    requires Scalars(cs)
  {
    if cs == [] then [] else Encode(cs[0]) + EncodeAll(cs[1..])
  }

  lemma {:induction false} StringEncodes(x: seq<Byte>) returns (cs: seq<nat>)
    requires RfcString(x)
    ensures Scalars(cs) && Nums(x) == EncodeAll(cs)
    decreases |x|
  {
    hide RfcChar, Encode;
    cs := [];
    if x != [] {
      var n :| 1 <= n <= |x| && RfcChar(x[..n]) && RfcString(x[n..]);
      CharIsEncoding(x[..n]);
      var c: nat :| Scalar(c) && Nums(x[..n]) == Encode(c);
      var rest := StringEncodes(x[n..]);
      cs := [c] + rest;
      assert cs[1..] == rest;
      assert Nums(x) == Nums(x[..n]) + Nums(x[n..]);
    }
  }

  lemma {:induction false} EncodingIsString(x: seq<Byte>, cs: seq<nat>)
    requires Scalars(cs) && Nums(x) == EncodeAll(cs)
    ensures RfcString(x)
    decreases |cs|
  {
    hide RfcChar, Encode;
    if cs != [] {
      var n := |Encode(cs[0])|;
      assert n >= 1 by { EncodeLength(cs[0]); }
      assert Nums(x)[..n] == Encode(cs[0]) && Nums(x)[n..] == EncodeAll(cs[1..]);
      assert Nums(x[..n]) == Nums(x)[..n] && Nums(x[n..]) == Nums(x)[n..];
      CharIsEncoding(x[..n]);
      EncodingIsString(x[n..], cs[1..]);
      RfcCons(x, n);
    }
  }

  lemma EncodeLength(c: nat)
    requires c <= 0x10FFFF
    ensures 1 <= |Encode(c)| <= 4
  {
  }

  /** The legal strings are exactly the encodings of strings of scalar values. */
  lemma StringIsEncoding(x: seq<Byte>)
    ensures RfcString(x) <==> exists cs :: Scalars(cs) && Nums(x) == EncodeAll(cs)
  {
    hide RfcString, EncodeAll;
    if RfcString(x) { var cs := StringEncodes(x); }
    if cs :| Scalars(cs) && Nums(x) == EncodeAll(cs) { EncodingIsString(x, cs); }
  }

  /** Two strings of scalar values with one encoding are one string. */
  lemma {:induction false} EncodingUnique(cs: seq<nat>, ds: seq<nat>)
    requires Scalars(cs) && Scalars(ds) && EncodeAll(cs) == EncodeAll(ds)
    ensures cs == ds
    decreases |cs|
  {
    hide Encode;
    if cs != [] { EncodeLength(cs[0]); }
    if ds != [] { EncodeLength(ds[0]); }
    if cs != [] && ds != [] {
      SameLead(cs[0], ds[0], EncodeAll(cs), EncodeAll(cs[1..]), EncodeAll(ds[1..]));
      EncodingUnique(cs[1..], ds[1..]);
    }
  }

  lemma SameLead(c: nat, d: nat, all: seq<nat>, s: seq<nat>, t: seq<nat>)
    requires Scalar(c) && Scalar(d) && all == Encode(c) + s == Encode(d) + t
    ensures c == d && s == t
  {
    assert all[0] == Encode(c)[0] == Encode(d)[0];
    assert |Encode(c)| == |Encode(d)|;
    assert Encode(c) == all[..|Encode(c)|] == Encode(d);
    assert s == all[|Encode(c)|..] == t;
    DecodeOfEncode(c);
    DecodeOfEncode(d);
  }
}
