/** Packing of raw values into payload bytes at arbitrary bit positions, and unpacking them again. */
module BitCodec {
  import opened Binary

  // ---- The meaning of a payload: its bits, and the little-endian number they spell ----

  function PayloadBits(p: seq<byte>): (r: seq<bool>)
    ensures |r| == 8 * |p|
  {
    if p == [] then [] else Bits(p[0], Width()) + PayloadBits(p[1..])
  }

  function LittleEndian(p: seq<byte>): nat {
    if p == [] then 0 else p[0] + 256 * LittleEndian(p[1..])
  }

  lemma {:induction false} ByteNumber(b: byte)
    ensures Num(Bits(b, Width())) == b
  {
    NumBits(b, Width());
    ByteRange();
    ModSmall(b, Pow2(Width()));
  }

  lemma {:induction false} PayloadNumber(p: seq<byte>)
    ensures Num(PayloadBits(p)) == LittleEndian(p)
  {
    if p != [] {
      PayloadNumber(p[1..]);
      NumConcat(Bits(p[0], Width()), PayloadBits(p[1..]));
      ShlTimes(Num(PayloadBits(p[1..])), Width());
      ByteNumber(p[0]);
      assert PayloadBits(p) == Bits(p[0], Width()) + PayloadBits(p[1..]);
      ByteRange();
    }
  }

  lemma {:induction false} PayloadByte(p: seq<byte>, i: nat)
    requires i < |p|
    ensures PayloadBits(p)[8 * i..8 * i + 8] == Bits(p[i], Width())
  {
    hide Bits;
    var w, t := Bits(p[0], Width()), PayloadBits(p[1..]);
    assert PayloadBits(p) == w + t;
    if i == 0 {
      assert (w + t)[..8] == w;
    } else {
      PayloadByte(p[1..], i - 1);
      BehindByte(w, t, 8 * (i - 1));
    }
  }

  lemma {:induction false} BehindByte(w: seq<bool>, t: seq<bool>, k: nat)
    requires |w| == 8 && k + 8 <= |t|
    ensures (w + t)[k + 8..k + 16] == t[k..k + 8]
  {}

  lemma {:induction false} PayloadBitsInjective(p: seq<byte>, q: seq<byte>)
    requires PayloadBits(p) == PayloadBits(q)
    ensures p == q
  {
    assert |p| == |q|;
    forall i | 0 <= i < |p| ensures p[i] == q[i] {
      PayloadByte(p, i);
      PayloadByte(q, i);
      ByteRange();
      BitsInjective(p[i], q[i], Width());
    }
  }

  /** b with the |f| bits from position s on replaced by f. */
  function Splice(b: seq<bool>, s: nat, f: seq<bool>): (r: seq<bool>)
    requires s + |f| <= |b|
    ensures |r| == |b|
  {
    b[..s] + f + b[s + |f|..]
  }

  lemma {:induction false} PayloadUpdate(p: seq<byte>, i: nat, b: byte)
    requires i < |p|
    ensures PayloadBits(p[i := b]) == Splice(PayloadBits(p), 8 * i, Bits(b, Width()))
  {
    hide Bits, Splice;
    var q, w, t := p[i := b], Bits(p[0], Width()), PayloadBits(p[1..]);
    if i == 0 {
      SpliceHead(w, t, Bits(b, Width()));
      assert q[1..] == p[1..];
    } else {
      PayloadUpdate(p[1..], i - 1, b);
      SpliceTail(w, t, 8 * (i - 1), Bits(b, Width()));
      assert q[1..] == p[1..][i - 1 := b];
    }
  }

  lemma {:induction false} SpliceHead(w: seq<bool>, t: seq<bool>, f: seq<bool>)
    requires |f| == |w|
    ensures Splice(w + t, 0, f) == f + t
  {}

  lemma {:induction false} SpliceTail(w: seq<bool>, t: seq<bool>, k: nat, f: seq<bool>)
    requires k + |f| <= |t|
    ensures Splice(w + t, |w| + k, f) == w + Splice(t, k, f)
  {}

  // ---- One byte: the masked insert and extract ----

  function Mask(n: nat): nat {
    Pow2(n) - 1
  }

  /** payload & ~M_p | V, on the N bits at offset O of one byte, from the low bits of value. */
  function InsertByte(p: byte, value: nat, O: nat, N: nat): nat
    requires O + N <= 8
  {
    MaskFits(O, N);
    Or(And(p, 255 - Shl(Mask(N), O)), Shl(And(value % 256, Mask(N)), O))
  }

  lemma {:induction false} MaskFits(O: nat, N: nat)
    requires O + N <= 8
    ensures Pow2(Width()) == 256 && Shl(Mask(N), O) < 256
  {
    ShlBound(Mask(N), N, O);
    Pow2Grows(N + O, Width());
    ByteRange();
  }

  lemma {:induction false} InsertedFits(p: byte, value: nat, O: nat, N: nat)
    requires O + N <= 8
    ensures InsertByte(p, value, O, N) < 256
  {
    hide And, Or, Shl, Mask, Pow2;
    MaskFits(O, N);
    var mask, low := Shl(Mask(N), O), And(value % 256, Mask(N));
    AndBound(p, 255 - mask);
    AndBound(value % 256, Mask(N));
    ShlMonotone(low, Mask(N), O);
    ByteRange();
    OrBound(And(p, 255 - mask), Shl(low, O), Width());
  }

  lemma {:induction false} InsertedBits(p: byte, value: nat, O: nat, N: nat)
    requires O + N <= 8
    ensures Bits(InsertByte(p, value, O, N), Width()) == Splice(Bits(p, Width()), O, Bits(value, N))
  {
    hide InsertByte, Bits;
    var b := InsertByte(p, value, O, N);
    forall i | 0 <= i < 8
      ensures Bits(b, Width())[i] == if O <= i < O + N then Bits(value, N)[i - O] else Bits(p, Width())[i]
    {
      InsertedBit(p, value, O, N, i);
    }
  }

  lemma {:induction false} InsertedBit(p: byte, value: nat, O: nat, N: nat, i: nat)
    requires O + N <= 8 && i < 8
    ensures Bits(InsertByte(p, value, O, N), Width())[i] ==
        if O <= i < O + N then Bits(value, N)[i - O] else Bits(p, Width())[i]
  {
    hide And, Or, Shl, Bits, Mask, Pow2;
    MaskFits(O, N);
    var mask, v := Shl(Mask(N), O), Shl(And(value % 256, Mask(N)), O);
    var keep := And(p, 255 - mask);
    OrBits(keep, v, Width(), i);
    KeptBit(p, O, N, 255 - mask, i);
    ValueBit(value, O, N, i);
    assert InsertByte(p, value, O, N) == Or(keep, v);
  }

  lemma {:induction false} KeptBit(p: byte, O: nat, N: nat, k: nat, i: nat)
    requires O + N <= 8 && i < 8 && Shl(Mask(N), O) + k == 255
    ensures Bits(And(p, k), Width())[i] == (Bits(p, Width())[i] && !(O <= i < O + N))
  {
    hide And, Shl, Bits, Mask, Pow2;
    ByteRange();
    AndBits(p, k, Width(), i);
    NotBits(Shl(Mask(N), O), k, Width(), i);
    MaskBit(O, N, i);
  }

  lemma {:induction false} MaskBit(O: nat, N: nat, i: nat)
    requires i < 8
    ensures Bits(Shl(Mask(N), O), Width())[i] == (O <= i < O + N)
  {
    hide Shl, Bits, Pow2;
    ShiftBits(Mask(N), O, Width(), i);
    if i >= O {
      MaskBits(N, Width(), i - O);
    }
  }

  lemma {:induction false} ValueBit(value: nat, O: nat, N: nat, i: nat)
    requires O + N <= 8 && i < 8
    ensures Bits(Shl(And(value % 256, Mask(N)), O), Width())[i] == (O <= i < O + N && Bits(value, N)[i - O])
  {
    hide And, Shl, Bits, Pow2;
    ShiftBits(And(value % 256, Mask(N)), O, Width(), i);
    if i >= O {
      MaskedBit(value, value % 256, N, i - O);
    }
  }

  lemma {:induction false} MaskedBit(value: nat, b: nat, N: nat, i: nat)
    requires N <= 8 && i < 8 && b == value % 256
    ensures Bits(And(b, Mask(N)), Width())[i] == (i < N && Bits(value, N)[i])
  {
    hide And, Bits, Pow2;
    AndBits(b, Mask(N), Width(), i);
    MaskBits(N, Width(), i);
    if i < N {
      LowByte(value, i);
      BitsPrefix(value, N, Width(), i);
    }
  }

  lemma {:induction false} LowByte(v: nat, i: nat)
    requires i < 8
    ensures Bits(v % 256, Width())[i] == Bits(v, Width())[i]
  {
    NumBits(v, Width());
    ByteRange();
    BitsNum(Bits(v, Width()));
  }

  /** (payload >> O) & M_v */
  function ExtractByte(p: byte, O: nat, N: nat): nat {
    And(Shr(p, O), Mask(N))
  }

  lemma {:induction false} ExtractedNumber(p: byte, O: nat, N: nat)
    requires O + N <= 8
    ensures ExtractByte(p, O, N) == Num(Bits(p, Width())[O..O + N])
  {
    hide And, Bits, Num, Pow2, Shr;
    var v := Shr(p, O);
    BitsSplit(p, O, 8 - O);
    assert Bits(p, Width())[O..] == Bits(v, 8 - O);
    BitsSplit(v, N, 8 - O - N);
    assert Bits(p, Width())[O..O + N] == Bits(v, N);
    forall i | 0 <= i < N ensures Bits(And(v, Mask(N)), N)[i] == Bits(v, N)[i] {
      AndBits(v, Mask(N), N, i);
      MaskBits(N, N, i);
    }
    AndBound(v, Mask(N));
    NumBits(And(v, Mask(N)), N);
    ModSmall(And(v, Mask(N)), Pow2(N));
    assert Bits(And(v, Mask(N)), N) == Bits(v, N);
  }

  // ---- The field operations ----

  /** q is p with the low length bits of raw at start. */
  predicate IsPacked(p: seq<byte>, q: seq<byte>, start: nat, length: nat, raw: nat)
  {
    start + length <= 8 * |p| && PayloadBits(q) == Splice(PayloadBits(p), start, Bits(raw, length))
  }

  lemma {:induction false} NothingPacked(p: seq<byte>, start: nat, raw: nat)
    requires start <= 8 * |p|
    ensures IsPacked(p, p, start, 0, raw)
  {
    assert Splice(PayloadBits(p), start, []) == PayloadBits(p);
  }

  /** Writing bits in two consecutive pieces is writing them at once. */
  lemma {:induction false} PackedNext(p: seq<byte>, q: seq<byte>, r: seq<byte>, start: nat, raw: nat, c: nat, n: nat)
    requires IsPacked(p, q, start, c, raw) && IsPacked(q, r, start + c, n, Shr(raw, c))
    requires start + c + n <= 8 * |p|
    ensures IsPacked(p, r, start, c + n, raw)
  {
    BitsSplit(raw, c, n);
    SpliceTwice(PayloadBits(p), start, Bits(raw, c), Bits(Shr(raw, c), n));
  }

  lemma {:induction false} SpliceTwice(b: seq<bool>, s: nat, f: seq<bool>, g: seq<bool>)
    requires s + |f| + |g| <= |b|
    ensures Splice(Splice(b, s, f), s + |f|, g) == Splice(b, s, f + g)
  {}

  /** Splicing N bits at offset O of byte i, seen on the whole payload. */
  lemma {:induction false} SpliceByte(p: seq<byte>, i: nat, O: nat, f: seq<bool>, b: byte)
    requires i < |p| && O + |f| <= 8 && Bits(b, Width()) == Splice(Bits(p[i], Width()), O, f)
    ensures PayloadBits(p[i := b]) == Splice(PayloadBits(p), 8 * i + O, f)
  {
    PayloadUpdate(p, i, b);
    PayloadByte(p, i);
    SpliceInside(PayloadBits(p), 8 * i, Bits(b, Width()), O, f);
  }

  lemma {:induction false} SpliceInside(b: seq<bool>, k: nat, w: seq<bool>, O: nat, f: seq<bool>)
    requires k + |w| <= |b| && O + |f| <= |w| && w == Splice(b[k..k + |w|], O, f)
    ensures Splice(b, k, w) == Splice(b, k + O, f)
  {
    assert b[k..k + |w|][..O] == b[k..k + O];
    assert b[k..k + |w|][O + |f|..] == b[k + O + |f|..k + |w|];
  }

  /** One masked write of the packing loop. */
  method WriteBits(payload: array<byte>, i: nat, value: nat, O: nat, N: nat)
    requires i < payload.Length && O + N <= 8
    modifies payload
    ensures IsPacked(old(payload[..]), payload[..], 8 * i + O, N, value)
  {
    InsertedBits(payload[i], value, O, N);
    InsertedFits(payload[i], value, O, N);
    SpliceByte(payload[..], i, O, Bits(value, N), InsertByte(payload[i], value, O, N));
    ghost var was := payload[..];
    payload[i] := InsertByte(payload[i], value, O, N);
    assert payload[..] == was[i := payload[i]];
  }

  /** payload[i] = (uint8_t)value */
  method WriteByte(payload: array<byte>, i: nat, value: nat)
    requires i < payload.Length
    modifies payload
    ensures IsPacked(old(payload[..]), payload[..], 8 * i, Width(), value)
  {
    ghost var was := payload[..];
    PayloadUpdate(was, i, value % 256);
    forall k | 0 <= k < 8 ensures Bits(value % 256, Width())[k] == Bits(value, Width())[k] {
      LowByte(value, k);
    }
    assert Bits(value % 256, Width()) == Bits(value, Width());
    payload[i] := value % 256;
    assert payload[..] == was[i := payload[i]];
  }

  /** Packs the low length bits of raw at bit position start, byte by byte. */
  method PackField(payload: array<byte>, start: nat, length: nat, raw: nat)
    requires start + length <= 8 * payload.Length
    modifies payload
    ensures IsPacked(old(payload[..]), payload[..], start, length, raw)
  {
    hide IsPacked;
    ghost var was := payload[..];
    ghost var now := was;
    var bitCount, byteIdx, value := 0, start / 8, raw;
    NothingPacked(was, start, raw);
    if start % 8 != 0 {
      var O := start % 8;
      var N := if 8 - O > length then length else 8 - O;
      if N > 0 {
        WriteBits(payload, byteIdx, value, O, N);
      }
      now := payload[..];
      byteIdx := byteIdx + 1;
      bitCount := N;
      value := Shr(value, N);
    }
    while bitCount + 8 < length
      invariant bitCount <= length && value == Shr(raw, bitCount)
      invariant bitCount < length ==> 8 * byteIdx == start + bitCount
      invariant payload[..] == now && IsPacked(was, now, start, bitCount, raw)
    {
      WriteByte(payload, byteIdx, value);
      PackedNext(was, now, payload[..], start, raw, bitCount, Width());
      ShrAdd(raw, bitCount, Width());
      now := payload[..];
      byteIdx := byteIdx + 1;
      bitCount := bitCount + 8;
      value := Shr(value, Width());
    }
    if bitCount < length {
      var N := length - bitCount;
      WriteBits(payload, byteIdx, value, 0, N);
      PackedNext(was, now, payload[..], start, raw, bitCount, N);
    }
  }

  /** The number held by the length bits at start. */
  function FieldValue(p: seq<byte>, start: nat, length: nat): nat
    requires start + length <= 8 * |p|
  {
    Num(PayloadBits(p)[start..start + length])
  }

  /** A field that is the whole payload holds its little-endian number. */
  lemma {:induction false} WholePayload(p: seq<byte>)
    ensures FieldValue(p, 0, 8 * |p|) == LittleEndian(p)
  {
    PayloadNumber(p);
    assert PayloadBits(p)[0..8 * |p|] == PayloadBits(p);
  }

  lemma {:induction false} FourBytesOf(p: seq<byte>)
    requires |p| == 4
    ensures LittleEndian(p) == 0x100_0000 * (p[3] as nat) + 0x1_0000 * (p[2] as nat) + 0x100 * (p[1] as nat) + p[0]
  {
    var q := p[1..];
    assert q[1..] == p[2..] && p[2..][1..] == [p[3]] && [p[3]][1..] == [];
    assert LittleEndian(p[2..]) == 256 * LittleEndian([p[3]]) + p[2];
  }

  /** One masked read of the unpacking loop: value's bits so far, with N more on top. */
  lemma {:induction false} ReadBits(p: seq<byte>, start: nat, c: nat, i: nat, O: nat, N: nat, value: nat)
    requires start + c + N <= 8 * |p| && i < |p| && O + N <= 8 && start + c == 8 * i + O
    requires value == FieldValue(p, start, c)
    ensures Or(value, Shl(ExtractByte(p[i], O, N), c)) == FieldValue(p, start, c + N)
  {
    hide PayloadBits, Bits, Num, Shl, Or, ExtractByte, Pow2;
    var pb := PayloadBits(p);
    ExtractedNumber(p[i], O, N);
    PayloadByte(p, i);
    SubSlice(pb, 8 * i, 8 * i + 8, O, O + N);
    BitsNum(pb[start..start + c]);
    OrAppends(value, ExtractByte(p[i], O, N), c);
    NumConcat(pb[start..start + c], pb[start + c..start + c + N]);
    assert pb[start..start + c] + pb[start + c..start + c + N] == pb[start..start + c + N];
  }

  lemma {:induction false} SubSlice(b: seq<bool>, lo: nat, hi: nat, i: nat, j: nat)
    requires lo <= hi <= |b| && i <= j <= hi - lo
    ensures b[lo..hi][i..j] == b[lo + i..lo + j]
  {
    forall k | 0 <= k < j - i ensures b[lo..hi][i..j][k] == b[lo + i..lo + j][k] {
      assert b[lo..hi][i..j][k] == b[lo..hi][i + k];
    }
  }

  /** Unpacks a field of at most 64 bits (beyond that the C shift is not defined). */
  method UnpackField(payload: array<byte>, start: nat, length: nat) returns (value: nat)
    requires start + length <= 8 * payload.Length && length <= 64
    ensures value == FieldValue(payload[..], start, length) && value < Pow2(64)
  {
    hide FieldValue, ExtractByte, Or, Pow2;
    ghost var p := payload[..];
    var bitCount, byteIdx := 0, start / 8;
    value := 0;
    EmptyField(p, start);
    if start % 8 != 0 {
      var O := start % 8;
      var N := if 8 - O > length then length else 8 - O;
      if N > 0 {
        ReadBits(p, start, 0, byteIdx, O, N, 0);
        OrZero(ExtractByte(p[byteIdx], O, N));
        value := ExtractByte(payload[byteIdx], O, N);
      }
      byteIdx := byteIdx + 1;
      bitCount := N;
    }
    while bitCount + 8 < length
      invariant bitCount <= length && value == FieldValue(p, start, bitCount)
      invariant bitCount < length ==> 8 * byteIdx == start + bitCount
    {
      ReadBits(p, start, bitCount, byteIdx, 0, Width(), value);
      WholeByte(payload[byteIdx]);
      value := Or(value, Shl(payload[byteIdx], bitCount));
      byteIdx := byteIdx + 1;
      bitCount := bitCount + 8;
    }
    if bitCount < length {
      var N := length - bitCount;
      ReadBits(p, start, bitCount, byteIdx, 0, N, value);
      value := Or(value, Shl(ExtractByte(payload[byteIdx], 0, N), bitCount));
    }
    FieldFits(p, start, length);
    assert payload[..] == p;
  }

  lemma {:induction false} EmptyField(p: seq<byte>, start: nat)
    requires start <= 8 * |p|
    ensures FieldValue(p, start, 0) == 0
  {}

  lemma {:induction false} FieldFits(p: seq<byte>, start: nat, length: nat)
    requires start + length <= 8 * |p| && length <= 64
    ensures FieldValue(p, start, length) < Pow2(64)
  {
    hide ExtractByte, Num, Pow2, Bits;
    BitsNum(PayloadBits(p)[start..start + length]);
    Pow2Grows(length, 64);
  }

  lemma {:induction false} WholeByte(b: byte)
    ensures ExtractByte(b, 0, Width()) == b
  {
    hide ExtractByte, Num, Bits;
    ExtractedNumber(b, 0, Width());
    assert Bits(b, Width())[0..Width()] == Bits(b, Width());
    ByteNumber(b);
  }

  // ---- What packing means ----

  /** n as low bits, then the length-digit field, then the rest: low + 2^start * (field + 2^length * high). */
  predicate Digits(n: nat, start: nat, length: nat, low: nat, field: nat, high: nat)
  {
    low < Pow2(start) && field < Pow2(length) && n == low + Shl(field + Shl(high, length), start)
  }

  /** The payload as one little-endian number: packing replaces the digits [start, start+length) by raw mod 2^length. */
  lemma {:induction false} PackNumeric(p: seq<byte>, q: seq<byte>, start: nat, length: nat, raw: nat)
    requires IsPacked(p, q, start, length, raw)
    ensures |q| == |p|
    ensures exists low: nat, mid: nat, high: nat ::
              Digits(LittleEndian(p), start, length, low, mid, high)
              && Digits(LittleEndian(q), start, length, low, raw % Pow2(length), high)
  {
    var b, f := PayloadBits(p), Bits(raw, length);
    var l, m, h := b[..start], b[start..start + length], b[start + length..];
    assert b == l + (m + h) && PayloadBits(q) == l + (f + h);
    SplitNumber(p, l, m, h);
    SplitNumber(q, l, f, h);
    NumBits(raw, length);
  }

  lemma {:induction false} SplitNumber(p: seq<byte>, l: seq<bool>, m: seq<bool>, h: seq<bool>)
    requires PayloadBits(p) == l + (m + h)
    ensures Digits(LittleEndian(p), |l|, |m|, Num(l), Num(m), Num(h))
  {
    PayloadNumber(p);
    NumConcat(l, m + h);
    NumConcat(m, h);
    BitsNum(l);
    BitsNum(m);
  }

  /** Unpacking the field just packed gives raw mod 2^length; a disjoint field keeps its value. */
  lemma {:induction false} UnpackPacked(p: seq<byte>, q: seq<byte>, start: nat, length: nat, raw: nat)
    requires IsPacked(p, q, start, length, raw)
    ensures FieldValue(q, start, length) == raw % Pow2(length)
  {
    assert PayloadBits(q)[start..start + length] == Bits(raw, length);
    NumBits(raw, length);
  }

  lemma {:induction false} UnpackDisjoint(p: seq<byte>, q: seq<byte>, start: nat, length: nat, raw: nat, s: nat, l: nat)
    requires IsPacked(p, q, start, length, raw)
    requires s + l <= 8 * |p| && (s + l <= start || start + length <= s)
    ensures FieldValue(q, s, l) == FieldValue(p, s, l)
  {
    hide PayloadBits, Bits, Splice;
    var a, b := PayloadBits(p), PayloadBits(q);
    forall i | s <= i < s + l ensures b[i] == a[i] {
      SpliceOutside(a, start, Bits(raw, length), i);
    }
    assert b[s..s + l] == a[s..s + l];
  }

  lemma {:induction false} SpliceOutside(b: seq<bool>, s: nat, f: seq<bool>, i: nat)
    requires s + |f| <= |b| && i < |b| && (i < s || s + |f| <= i)
    ensures Splice(b, s, f)[i] == b[i]
  {
    if i >= s + |f| {
      assert b[s + |f|..][i - s - |f|] == b[i];
    }
  }

  lemma {:induction false} SpliceCommutes(b: seq<bool>, s: nat, f: seq<bool>, t: nat, g: seq<bool>)
    requires s + |f| <= |b| && t + |g| <= |b| && (s + |f| <= t || t + |g| <= s)
    ensures Splice(Splice(b, s, f), t, g) == Splice(Splice(b, t, g), s, f)
  {}

  /** Two disjoint fields may be packed in either order. */
  lemma {:induction false} PackCommutes(p: seq<byte>, a: seq<byte>, ab: seq<byte>, b: seq<byte>, ba: seq<byte>,
                     s: nat, l: nat, x: nat, t: nat, m: nat, y: nat)
    requires s + l <= t || t + m <= s
    requires IsPacked(p, a, s, l, x) && IsPacked(a, ab, t, m, y)
    requires IsPacked(p, b, t, m, y) && IsPacked(b, ba, s, l, x)
    ensures ab == ba
  {
    hide PayloadBits, Bits;
    SpliceCommutes(PayloadBits(p), s, Bits(x, l), t, Bits(y, m));
    PayloadBitsInjective(ab, ba);
  }
}
