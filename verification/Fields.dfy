/** All fields of one payload: the payload as a function of the raw values, and back. */
module Fields {
  import opened Binary
  import opened BitCodec

  datatype Field = Field(start: nat, length: nat)

  predicate Fits(f: Field, bytes: nat) {
    f.start + f.length <= 8 * bytes
  }

  predicate AllFit(fs: seq<Field>, bytes: nat) {
    forall i | 0 <= i < |fs| :: Fits(fs[i], bytes)
  }

  predicate Apart(f: Field, g: Field) {
    f.start + f.length <= g.start || g.start + g.length <= f.start
  }

  predicate Disjoint(fs: seq<Field>) {
    forall i, j | 0 <= i < j < |fs| :: Apart(fs[i], fs[j])
  }

  /** The bytes whose bits are b. */
  function FromBits(b: seq<bool>): (p: seq<byte>)
    requires |b| % 8 == 0
    ensures PayloadBits(p) == b
  {
    if b == [] then [] else
    BitsNum(b[..Width()]);
    ByteRange();
    assert b == b[..Width()] + b[Width()..];
    var p := [Num(b[..Width()])] + FromBits(b[Width()..]);
    assert p[1..] == FromBits(b[Width()..]);
    p
  }

  /** The payload that PackField leaves. */
  function Pack(p: seq<byte>, f: Field, raw: nat): (q: seq<byte>)
    requires Fits(f, |p|)
    ensures |q| == |p| && IsPacked(p, q, f.start, f.length, raw)
  {
    FromBits(Splice(PayloadBits(p), f.start, Bits(raw, f.length)))
  }

  lemma {:induction false} PackUnique(p: seq<byte>, q: seq<byte>, f: Field, raw: nat)
    requires IsPacked(p, q, f.start, f.length, raw)
    ensures Fits(f, |p|) && q == Pack(p, f, raw)
  {
    PayloadBitsInjective(q, Pack(p, f, raw));
  }

  /** Packs raws[i] into fs[i], first to last. */
  function PackAll(p: seq<byte>, fs: seq<Field>, raws: seq<nat>): (q: seq<byte>)
    requires |fs| == |raws| && AllFit(fs, |p|)
    ensures |q| == |p|
  {
    if fs == [] then p else
    var n := |fs| - 1;
    Pack(PackAll(p, fs[..n], raws[..n]), fs[n], raws[n])
  }

  /** The bit at position i after packing: the last field that covers it decides. */
  function FinalBit(b: seq<bool>, fs: seq<Field>, raws: seq<nat>, i: nat): bool
    requires |fs| == |raws| && i < |b|
  {
    if fs == [] then b[i] else
    var n := |fs| - 1;
    if fs[n].start <= i < fs[n].start + fs[n].length then Bits(raws[n], fs[n].length)[i - fs[n].start]
    else FinalBit(b, fs[..n], raws[..n], i)
  }

  lemma {:induction false} PackAllBit(p: seq<byte>, fs: seq<Field>, raws: seq<nat>, i: nat)
    requires |fs| == |raws| && AllFit(fs, |p|) && i < 8 * |p|
    ensures PayloadBits(PackAll(p, fs, raws))[i] == FinalBit(PayloadBits(p), fs, raws, i)
  {
    if fs != [] {
      PackAllBit(p, fs[..|fs| - 1], raws[..|fs| - 1], i);
    }
  }

  lemma {:induction false} FinalBitSettles(b: seq<bool>, c: seq<bool>, fs: seq<Field>, raws: seq<nat>, i: nat)
    requires |fs| == |raws| && i < |b| == |c| && c[i] == FinalBit(b, fs, raws, i)
    ensures FinalBit(c, fs, raws, i) == FinalBit(b, fs, raws, i)
  {
    if fs != [] {
      var n := |fs| - 1;
      if !(fs[n].start <= i < fs[n].start + fs[n].length) {
        FinalBitSettles(b, c, fs[..n], raws[..n], i);
      }
    }
  }

  /** Packing the same raw values again changes nothing, even when fields overlap. */
  lemma {:induction false} PackAllIdempotent(p: seq<byte>, fs: seq<Field>, raws: seq<nat>)
    requires |fs| == |raws| && AllFit(fs, |p|)
    ensures PackAll(PackAll(p, fs, raws), fs, raws) == PackAll(p, fs, raws)
  {
    var q := PackAll(p, fs, raws);
    var r := PackAll(q, fs, raws);
    forall i | 0 <= i < 8 * |p| ensures PayloadBits(r)[i] == PayloadBits(q)[i] {
      PackAllBit(p, fs, raws, i);
      PackAllBit(q, fs, raws, i);
      FinalBitSettles(PayloadBits(p), PayloadBits(q), fs, raws, i);
    }
    PayloadBitsInjective(r, q);
  }

  /** A zero payload packed with zeros stays zero: the initial state is packed. */
  lemma {:induction false} PackZeros(p: seq<byte>, fs: seq<Field>, raws: seq<nat>)
    requires |fs| == |raws| && AllFit(fs, |p|)
    requires forall i | 0 <= i < |p| :: p[i] == 0
    requires forall i | 0 <= i < |raws| :: raws[i] == 0
    ensures PackAll(p, fs, raws) == p
  {
    if fs != [] {
      var n := |fs| - 1;
      PackZeros(p, fs[..n], raws[..n]);
      ZeroBits(p);
      BitsZero(fs[n].length);
      assert Splice(PayloadBits(p), fs[n].start, Bits(0, fs[n].length)) == PayloadBits(p);
      PayloadBitsInjective(Pack(p, fs[n], 0), p);
    }
  }

  lemma {:induction false} ZeroBits(p: seq<byte>)
    requires forall i | 0 <= i < |p| :: p[i] == 0
    ensures forall i | 0 <= i < 8 * |p| :: !PayloadBits(p)[i]
  {
    if p != [] {
      ZeroBits(p[1..]);
      BitsZero(Width());
    }
  }

  /** Disjoint fields, packed together, are all read back. */
  lemma {:induction false} UnpackAll(p: seq<byte>, fs: seq<Field>, raws: seq<nat>, k: nat)
    requires |fs| == |raws| && AllFit(fs, |p|) && Disjoint(fs) && k < |fs|
    ensures FieldValue(PackAll(p, fs, raws), fs[k].start, fs[k].length) == raws[k] % Pow2(fs[k].length)
  {
    hide FieldValue, Pow2, IsPacked, Pack;
    var n := |fs| - 1;
    var q := PackAll(p, fs[..n], raws[..n]);
    if k == n {
      UnpackPacked(q, Pack(q, fs[n], raws[n]), fs[n].start, fs[n].length, raws[n]);
    } else {
      UnpackAll(p, fs[..n], raws[..n], k);
      assert Apart(fs[k], fs[n]);
      UnpackDisjoint(q, Pack(q, fs[n], raws[n]), fs[n].start, fs[n].length, raws[n], fs[k].start, fs[k].length);
    }
  }
}
