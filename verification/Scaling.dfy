/** The linear transform between physical values and raw integers. */
module Scaling {
  import opened Binary

  datatype Option<+T> = None | Some(value: T)

  /** Absent parameters are the NaN defaults of a signal. */
  datatype Scale = Scale(factor: Option<real>, offset: Option<real>, min: Option<real>, max: Option<real>)
  {
    predicate InRange(x: real) {
      (max.Some? ==> x <= max.value) && (min.Some? ==> min.value <= x)
    }

    /** A zero factor is rejected when the signal is generated. */
    predicate Valid() {
      factor.Some? ==> factor.value != 0.0
    }
  }

  /** (uint64_t)x: truncation. C does not define the result outside 64 bits; 0 stands for it here. */
  function ToUint64(x: real): nat {
    if 0.0 <= x && x.Floor < Pow2(64) then x.Floor else 0
  }

  function Steps(phys: real, factor: real, offset: real): real
    requires factor != 0.0
  {
    (phys - offset) / factor
  }

  function Physical(raw: nat, factor: real, offset: real): real {
    raw as real * factor + offset
  }

  /** The raw value after a Tx calculation; it keeps its old value when a constraint fails. */
  function Encode(s: Scale, phys: real, raw: nat): nat
    requires s.Valid()
  {
    if s.InRange(phys) && s.factor.Some?
        && s.offset.Some? then ToUint64(Steps(phys, s.factor.value, s.offset.value)) else raw
  }

  /** The physical value after an Rx calculation; it keeps its old value when a constraint fails. */
  function Decode(s: Scale, raw: nat, phys: real): real {
    if s.factor.None? || s.offset.None? then phys else
    var val := Physical(raw, s.factor.value, s.offset.value);
    if s.InRange(val) then val else phys
  }

  // ---- The two conversions, written out ----

  predicate Scaled(s: Scale) {
    s.factor.Some? && s.offset.Some? && s.factor.value != 0.0
  }

  predicate Within(s: Scale, v: real) {
    && (s.max.Some? ==> v <= s.max.value)
    && (s.min.Some? ==> s.min.value <= v)
  }

  /** A value within the limits becomes its step count rounded down (to what fits 64 bits); any other leaves was. */
  predicate EncodedAs(s: Scale, v: real, was: nat, now: nat) {
    if Scaled(s) && Within(s, v) then
      var steps := (v - s.offset.value) / s.factor.value;
      0.0 <= steps < 18446744073709551616.0 ==> now == steps.Floor
    else now == was
  }

  /** A raw value times factor plus offset, if that is within the limits; else was. */
  predicate DecodedAs(s: Scale, raw: nat, was: real, now: real) {
    if Scaled(s) && Within(s, raw as real * s.factor.value + s.offset.value)
    then now == raw as real * s.factor.value + s.offset.value
    else now == was
  }

  lemma {:induction false} Pow64()
    ensures Pow2(64) == 0x1_0000_0000_0000_0000
  {
    assert Pow2(8) == 0x100 && Pow2(16) == 0x1_0000 && Pow2(24) == 0x100_0000 && Pow2(32) == 0x1_0000_0000;
    assert Pow2(40) == 0x100_0000_0000 && Pow2(48) == 0x1_0000_0000_0000 && Pow2(56) == 0x100_0000_0000_0000;
  }

  lemma {:induction false} EncodeIs(s: Scale, v: real, was: nat)
    requires s.Valid()
    ensures EncodedAs(s, v, was, Encode(s, v, was))
  {
    Pow64();
    hide Pow2;
  }

  lemma {:induction false} DecodeIs(s: Scale, raw: nat, was: real)
    requires s.Valid()
    ensures DecodedAs(s, raw, was, Decode(s, raw, was))
  {}

  function Abs(x: real): real {
    if x < 0.0 then -x else x
  }

  /** The step count (phys - offset) / factor lies in [0, 2^length). */
  predicate Representable(s: Scale, length: nat, phys: real) {
    && s.Valid() && s.factor.Some? && s.offset.Some? && s.InRange(phys)
    && 0.0 <= Steps(phys, s.factor.value, s.offset.value) < Pow2(length) as real
  }

  lemma {:induction false} EncodeFits(s: Scale, length: nat, phys: real, raw: nat)
    requires Representable(s, length, phys) && length <= 64
    ensures Encode(s, phys, raw) < Pow2(length)
    ensures Encode(s, phys, raw) == Steps(phys, s.factor.value, s.offset.value).Floor
  {
    Pow2Grows(length, 64);
  }

  /** Decoding with the receiver's limits gives the sent value to within one step,
      and that value encodes to the same raw. */
  lemma {:induction false} DecodeEncode(tx: Scale, rx: Scale, length: nat, phys: real, raw: nat, was: real)
    requires Representable(tx, length, phys) && length <= 64
    requires rx.factor == tx.factor && rx.offset == tx.offset
    requires rx.InRange(Physical(Encode(tx, phys, raw), tx.factor.value, tx.offset.value))
    ensures var got := Decode(rx, Encode(tx, phys, raw), was);
            && Abs(got - phys) < Abs(tx.factor.value)
            && (tx.InRange(got) ==> Encode(tx, got, raw) == Encode(tx, phys, raw))
  {
    hide Steps, Physical, Pow2;
    EncodeFits(tx, length, phys, raw);
    Pow2Grows(length, 64);
    var f, o := tx.factor.value, tx.offset.value;
    var n := Encode(tx, phys, raw);
    WithinStep(f, o, phys, n);
    Unscale(f, o, n);
  }

  lemma {:induction false} Unscale(f: real, o: real, n: nat)
    requires f != 0.0
    ensures Steps(Physical(n, f, o), f, o) == n as real
  {
    var y := n as real * f;
    assert y + o - o == y;
    assert y / f == n as real;
  }

  lemma {:induction false} WithinStep(f: real, o: real, phys: real, n: nat)
    requires f != 0.0 && n == Steps(phys, f, o).Floor
    ensures Abs(Physical(n, f, o) - phys) < Abs(f)
  {
    var x := (phys - o) / f;
    var d := x - n as real;
    assert x * f == phys - o;
    assert d * f == x * f - n as real * f;
    Shrinks(d, f);
  }

  lemma {:induction false} Shrinks(d: real, f: real)
    requires 0.0 <= d < 1.0 && f != 0.0
    ensures Abs(-(d * f)) < Abs(f)
  {
    var e := 1.0 - d;
    assert d * f + e * f == f;
    if f > 0.0 {
      Product(d, f);
      Product(e, f);
    } else {
      Product(d, -f);
      Product(e, -f);
      assert d * -f == -(d * f) && e * -f == -(e * f);
    }
  }

  lemma {:induction false} Product(a: real, b: real)
    requires a >= 0.0 && b > 0.0
    ensures a * b >= 0.0 && (a > 0.0 ==> a * b > 0.0)
  {}
}
