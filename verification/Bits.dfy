/** Numbers as bits, lowest first. */
module Bits {

  newtype Byte = x: int | 0 <= x < 256

  type Bytes = seq<Byte>

  function Zeros(k: nat): (z: seq<bool>)
    ensures |z| == k && forall i :: 0 <= i < k ==> !z[i]
  {
    seq(k, _ => false)
  }

  function Pow2(k: nat): (p: nat)
    ensures p > 0
  {
    if k == 0 then 1 else 2 * Pow2(k - 1)
  }

  /** The low k bits of a number. */
  function BitsOf(n: nat, k: nat): (s: seq<bool>)
    ensures |s| == k
  {
    if k == 0 then [] else [n % 2 == 1] + BitsOf(n / 2, k - 1)
  }

  function ToNat(s: seq<bool>): (n: nat)
    ensures n < Pow2(|s|)
  {
    if s == [] then 0 else (if s[0] then 1 else 0) + 2 * ToNat(s[1..])
  }

  lemma {:induction false} BitsOfZero(k: nat)
    ensures BitsOf(0, k) == Zeros(k)
  {
    if k > 0 { BitsOfZero(k - 1); }
  }

  lemma {:induction false} BitsOfToNat(s: seq<bool>, k: nat)
    requires |s| <= k
    ensures BitsOf(ToNat(s), k) == s + Zeros(k - |s|)
    decreases |s|
  {
    if s == [] {
      BitsOfZero(k);
    } else {
      BitsOfToNat(s[1..], k - 1);
      assert s == [s[0]] + s[1..];
    }
  }

  lemma ToNatInjective(s: seq<bool>, t: seq<bool>)
    requires |s| == |t| && ToNat(s) == ToNat(t)
    ensures s == t
  {
    BitsOfToNat(s, |s|);
    BitsOfToNat(t, |t|);
  }

  /** A number doubled some times. */
  function Doubled(n: nat, k: nat): nat {
    if k == 0 then n else 2 * Doubled(n, k - 1)
  }

  lemma ByteDoubled(n: nat, k: nat)
    ensures Doubled(n, k + 8) == 256 * Doubled(n, k)
  {
    assert Doubled(n, k + 8) == 2 * Doubled(n, k + 7) && Doubled(n, k + 7) == 2 * Doubled(n, k + 6);
    assert Doubled(n, k + 6) == 2 * Doubled(n, k + 5) && Doubled(n, k + 5) == 2 * Doubled(n, k + 4);
    assert Doubled(n, k + 4) == 2 * Doubled(n, k + 3) && Doubled(n, k + 3) == 2 * Doubled(n, k + 2);
    assert Doubled(n, k + 2) == 2 * Doubled(n, k + 1) && Doubled(n, k + 1) == 2 * Doubled(n, k);
  }

  lemma {:induction false} ToNatConcat(s: seq<bool>, t: seq<bool>)
    ensures ToNat(s + t) == ToNat(s) + Doubled(ToNat(t), |s|)
    decreases |s|
  {
    if s == [] {
      assert s + t == t;
    } else {
      assert (s + t)[1..] == s[1..] + t;
      ToNatConcat(s[1..], t);
    }
  }

  lemma {:induction false} ToNatBitsOf(n: nat, k: nat)
    requires n < Pow2(k)
    ensures ToNat(BitsOf(n, k)) == n
  {
    if k > 0 {
      ToNatBitsOf(n / 2, k - 1);
      assert BitsOf(n, k)[1..] == BitsOf(n / 2, k - 1);
    }
  }

  function Halved(n: nat, times: nat): nat {
    if times == 0 then n else Halved(n / 2, times - 1)
  }

  lemma {:induction false} BitsOfAt(n: nat, k: nat, i: nat)
    requires i < k
    ensures BitsOf(n, k)[i] == (Halved(n, i) % 2 == 1)
  {
    if i > 0 { BitsOfAt(n / 2, k - 1, i - 1); }
  }

  function ByteBits(b: Byte): seq<bool> { BitsOf(b as nat, 8) }

  lemma ByteBitsInjective(a: Byte, b: Byte)
    requires ByteBits(a) == ByteBits(b)
    ensures a == b
  {
    ToNatBitsOf(a as nat, 8);
    ToNatBitsOf(b as nat, 8);
  }

  // ---- 32-bit words ----------------------------------------------------------------------------------------

  /** A 32-bit word, lowest bit first. */
  type Word = s: seq<bool> | |s| == 32 witness Zeros(32)

  function Zero(): Word { Zeros(32) }

  function Xor(a: Word, b: Word): Word {
    seq(32, i requires 0 <= i < 32 => a[i] != b[i])
  }

  lemma XorAt(a: Word, b: Word)
    ensures forall i :: 0 <= i < 32 ==> Xor(a, b)[i] == (a[i] != b[i])
  {
  }

  lemma XorMiddle(p: Word, a: Word, b: Word)
    ensures Xor(p, Xor(a, b)) == Xor(Xor(p, a), b)
    ensures Xor(p, Xor(a, b)) == Xor(a, Xor(p, b))
    ensures Xor(Xor(p, a), Xor(p, b)) == Xor(a, b)
  {
  }

  lemma XorComm(a: Word, b: Word)
    ensures Xor(a, b) == Xor(b, a)
  {
  }

  lemma XorZero(a: Word)
    ensures Xor(a, Zero()) == a && Xor(Zero(), a) == a
  {
  }

  lemma XorCancel(x: Word, y: Word, k: Word)
    requires Xor(x, k) == Xor(y, k)
    ensures x == y
  {
    XorAt(x, k);
    XorAt(y, k);
    assert forall i :: 0 <= i < 32 ==> (x[i] != k[i]) == (y[i] != k[i]);
  }

  // ---- byte strings in pieces -------------------------------------------------------------------------------

  function Concat(chunks: seq<Bytes>): Bytes {
    if chunks == [] then [] else chunks[0] + Concat(chunks[1..])
  }

  lemma {:induction false} ConcatSnoc(chunks: seq<Bytes>, c: Bytes)
    ensures Concat(chunks + [c]) == Concat(chunks) + c
    decreases |chunks|
  {
    if chunks == [] {
      assert chunks + [c] == [c] && [c][1..] == [];
    } else {
      assert (chunks + [c])[1..] == chunks[1..] + [c];
      ConcatSnoc(chunks[1..], c);
    }
  }

  lemma ConcatNone()
    ensures Concat([]) == []
  {
  }

  lemma ConcatCons(chunks: seq<Bytes>)
    requires chunks != []
    ensures Concat(chunks) == chunks[0] + Concat(chunks[1..])
  {
  }

  lemma ConcatOne(c: Bytes)
    ensures Concat([c]) == c
  {
    assert [c][1..] == [];
  }

  // ---- views as the host cuts them ---------------------------------------------------------------------------

  /** A bound as the host clamps it: a negative one counts from the end. */
  function Bound(n: int, size: nat): (k: nat)
    ensures k <= size
  {
    if n < 0 then (if size + n < 0 then 0 else size + n) else if n > size then size else n
  }

  function Subarray(s: Bytes, begin: int, end: int): Bytes {
    var b, e := Bound(begin, |s|), Bound(end, |s|);
    if b < e then s[b..e] else []
  }
}
