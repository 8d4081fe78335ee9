/** The FNV-1a payload checksum that decides whether a PDU is sent. */
module Checksum {
  import opened Binary

  const BASIS: nat := 2166136261
  const PRIME: nat := 16777619
  const INVERSE: nat := 0x359C449B  // of PRIME, modulo WORD
  const WORD: nat := 0x1_0000_0000

  /** csum = (csum ^ b) * FNV_PRIME, in 32 bits */
  function FnvStep(csum: nat, b: byte): (r: nat)
    ensures r < WORD
  {
    Xor(csum, b) * PRIME % WORD
  }

  function Fnv(p: seq<byte>): (r: nat)
    ensures r < WORD
  {
    if p == [] then BASIS else FnvStep(Fnv(p[..|p| - 1]), p[|p| - 1])
  }

  /** The checksum of a payload buffer; a PDU of length 0 has no buffer and hashes to 0. */
  function PayloadHash(p: seq<byte>): nat {
    if p == [] then 0 else Fnv(p)
  }

  method Compute(payload: array<byte>) returns (csum: nat)
    ensures csum == Fnv(payload[..])
  {
    csum := BASIS;
    var i := 0;
    while i < payload.Length
      invariant i <= payload.Length && csum == Fnv(payload[..i])
    {
      assert payload[..i + 1][..i] == payload[..i];
      csum := FnvStep(csum, payload[i]);
      i := i + 1;
    }
    assert payload[..i] == payload[..];
  }

  /** Multiplying by the prime is undone by multiplying by its inverse. */
  lemma {:induction false} PrimeInvertible(x: nat)
    requires x < WORD
    ensures x * PRIME % WORD * INVERSE % WORD == x
  {
    var q, r := x * PRIME / WORD, x * PRIME % WORD;
    var k := x * 3513497 - q * INVERSE;
    assert x * PRIME == q * WORD + r;
    assert r * INVERSE == WORD * k + x;
    assert k >= 0;
    ModUnique(r * INVERSE, WORD, k, x);
  }

  lemma {:induction false} WordRange()
    ensures Pow2(32) == WORD
  {
    assert Pow2(8) == 0x100;
    assert Pow2(16) == 0x1_0000;
    assert Pow2(24) == 0x100_0000;
  }

  /** Each step is a bijection of the running checksum, and of the byte. */
  lemma {:induction false} StepInjective(c: nat, d: nat, a: byte, b: byte)
    requires c < WORD && d < WORD && FnvStep(c, a) == FnvStep(d, b)
    ensures (a == b ==> c == d) && (c == d ==> a == b)
  {
    WordRange();
    XorBound(c, a, 32);
    XorBound(d, b, 32);
    PrimeInvertible(Xor(c, a));
    PrimeInvertible(Xor(d, b));
    XorCancels(c, a);
    XorCancels(d, b);
    XorCommutes(c, a);
    XorCommutes(d, b);
    XorCancels(a, c);
    XorCancels(b, d);
  }

  /** A common suffix keeps different checksums different. */
  lemma {:induction false} SuffixInjective(p: seq<byte>, q: seq<byte>, s: seq<byte>)
    requires Fnv(p) != Fnv(q)
    ensures Fnv(p + s) != Fnv(q + s)
  {
    if s == [] {
      assert p + s == p && q + s == q;
    } else {
      var n := |s| - 1;
      SuffixInjective(p, q, s[..n]);
      assert (p + s)[..|p + s| - 1] == p + s[..n] && (q + s)[..|q + s| - 1] == q + s[..n];
      if Fnv(p + s) == Fnv(q + s) {
        StepInjective(Fnv(p + s[..n]), Fnv(q + s[..n]), s[n], s[n]);
      }
    }
  }

  /** Changing exactly one byte always changes the checksum. */
  lemma {:induction false} OneByteChange(p: seq<byte>, i: nat, b: byte)
    requires i < |p|
    ensures PayloadHash(p[i := b]) == PayloadHash(p) <==> b == p[i]
  {
    if b == p[i] {
      assert p[i := b] == p;
    } else {
      var u, v := p[..i] + [p[i]], p[..i] + [b];
      assert u[..i] == p[..i] && v[..i] == p[..i];
      if Fnv(u) == Fnv(v) {
        StepInjective(Fnv(p[..i]), Fnv(p[..i]), p[i], b);
      }
      SuffixInjective(u, v, p[i + 1..]);
      assert u + p[i + 1..] == p && v + p[i + 1..] == p[i := b];
    }
  }

  lemma {:induction false} XorHalves(a: nat, b: nat)
    ensures Xor(a, b) == 2 * Xor(a / 2, b / 2) + (if a % 2 != b % 2 then 1 else 0)
  {}

  lemma {:induction false} XorSame(a: nat)
    ensures Xor(a, a) == 0
  {
    XorCancels(0, a);
    XorCommutes(0, a);
    XorZero(a);
  }

  /** The bits above the low n are not touched. */
  lemma {:induction false} XorLow(q: nat, r: nat, b: nat, n: nat)
    requires r < Pow2(n) && b < Pow2(n)
    ensures Xor(q * Pow2(n) + r, b) == q * Pow2(n) + Xor(r, b)
  {
    hide Xor;
    if n == 0 {
      XorZero(q);
      XorZero(0);
    } else {
      var m := q * Pow2(n - 1);
      XorLow(q, r / 2, b / 2, n - 1);
      assert q * Pow2(n) == 2 * m;
      hide Pow2;
      XorHalves(2 * m + r, b);
      XorHalves(r, b);
      assert (2 * m + r) / 2 == m + r / 2;
    }
  }

  lemma {:induction false} StepAt(q: nat, r: byte, b: byte, y: nat, x: nat)
    requires Xor(r, b) == y && x == (256 * q + y) * PRIME % WORD
    ensures FnvStep(256 * q + r, b) == x
  {
    ByteRange();
    XorLow(q, r, b, 8);
  }

  lemma {:induction false} ByteXors()
    ensures Xor(0xc5, 0xcc) == 0x9
    ensures Xor(0x2b, 0x24) == 0xf
    ensures Xor(0x9d, 0x31) == 0xac
    ensures Xor(0xc4, 0xc4) == 0x0
  {
    hide Xor;
    XorHalves(0xc5, 0xcc);
    XorHalves(0x62, 0x66);
    XorHalves(0x31, 0x33);
    XorHalves(0x18, 0x19);
    XorSame(0xc);
    XorHalves(0x2b, 0x24);
    XorHalves(0x15, 0x12);
    XorHalves(0xa, 0x9);
    XorHalves(0x5, 0x4);
    XorSame(0x2);
    XorHalves(0x9d, 0x31);
    XorHalves(0x4e, 0x18);
    XorHalves(0x27, 0xc);
    XorHalves(0x13, 0x6);
    XorHalves(0x9, 0x3);
    XorHalves(0x4, 0x1);
    XorZero(0x2);
    XorSame(0xc4);
  }

  lemma {:induction false} FnvNext(p: seq<byte>, i: nat)
    requires i < |p|
    ensures Fnv([]) == BASIS && p[..0] == [] && Fnv(p[..i + 1]) == FnvStep(Fnv(p[..i]), p[i])
  {
    assert p[..i + 1][..i] == p[..i];
  }

  /** The four steps over a payload. */
  lemma {:induction false} FourSteps()
    ensures FnvStep(BASIS, 0xcc) == 1225471275 && FnvStep(1225471275, 0x24) == 195331741
    ensures FnvStep(195331741, 0x31) == 196 && FnvStep(196, 0xc4) == 0
  {
    hide Xor, FnvStep;
    ByteXors();
    StepAt(8461469, 0xc5, 0xcc, 0x9, 1225471275);
    StepAt(4786997, 0x2b, 0x24, 0xf, 195331741);
    StepAt(763014, 0x9d, 0x31, 0xac, 196);
    StepAt(0, 0xc4, 0xc4, 0x0, 0);
  }

  /** 0 is the checksum of a non-empty payload, too. */
  lemma {:induction false} ZeroHash()
    ensures PayloadHash([0xcc, 0x24, 0x31, 0xc4]) == 0
  {
    hide FnvStep, Fnv;
    var p: seq<byte> := [0xcc, 0x24, 0x31, 0xc4];
    FourSteps();
    FnvNext(p, 0);
    FnvNext(p, 1);
    FnvNext(p, 2);
    FnvNext(p, 3);
    assert p[..4] == p;
  }
}
