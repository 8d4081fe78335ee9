/** The values on the bus and in the models: what a Ready writes, what a Start carries, and what becomes of both. */
module BusData {
  import opened Binary

  /** A signal of a channel. Signal ids stand for the UIDs, which are non-zero and distinct for distinct names. */
  datatype Key = Key(ch: nat, sig: nat)

  // ---- The bus ----

  datatype Sv = Sv(val: real, fin: real, bin: seq<byte>)

  /** One SignalVector of a Ready: a model's writes to a channel. */
  datatype Vector = Vector(uid: nat, ch: nat, scalars: map<nat, real>, bins: map<nat, seq<byte>>)

  function BinOf(v: Vector, k: Key): seq<byte> {
    if v.ch == k.ch && k.sig in v.bins then v.bins[k.sig] else []
  }

  function Written(x: Sv, v: Vector, k: Key): Sv {
    Sv(x.val, if v.ch == k.ch && k.sig in v.scalars then v.scalars[k.sig] else x.fin, x.bin + BinOf(v, k))
  }

  /** Unknown signals are ignored. */
  function Write(sv: map<Key, Sv>, v: Vector): (r: map<Key, Sv>)
    ensures r.Keys == sv.Keys
  {
    map k | k in sv :: Written(sv[k], v, k)
  }

  function WriteAll(sv: map<Key, Sv>, vs: seq<Vector>): (r: map<Key, Sv>)
    ensures r.Keys == sv.Keys
  {
    if vs == [] then sv else Write(WriteAll(sv, vs[..|vs| - 1]), vs[|vs| - 1])
  }

  /** What a Start carries: the changed scalars and the non-empty binaries. */
  datatype Delta = Delta(scalars: map<Key, real>, bins: map<Key, seq<byte>>)

  function DeltaOf(sv: map<Key, Sv>): Delta {
    Delta(map k | k in sv && sv[k].val != sv[k].fin :: sv[k].fin, map k | k in sv && sv[k].bin != [] :: sv[k].bin)
  }

  function Resolve(sv: map<Key, Sv>): (r: map<Key, Sv>)
    ensures r.Keys == sv.Keys
  {
    map k | k in sv :: Sv(sv[k].fin, sv[k].fin, [])
  }

  /** The value of a signal; one not yet on the bus would be created with 0. */
  function ValOf(sv: map<Key, Sv>, k: Key): real {
    if k in sv then sv[k].val else 0.0
  }

  /** The channel after a SignalIndex: missing signals are created. */
  function Indexed(sv: map<Key, Sv>, ch: nat, signals: set<nat>): (r: map<Key, Sv>)
    ensures r.Keys == sv.Keys + set x | x in signals :: Key(ch, x)
  {
    sv + map k | k in (set x | x in signals :: Key(ch, x)) && k !in sv :: Sv(0.0, 0.0, [])
  }

  // ---- A model ----

  /** A signal of a model: the adapter's value and buffer, and the model's own buffer. */
  datatype Cell = Cell(val: real, fin: real, bin: seq<byte>, buf: seq<byte>, reset: bool)

  /** What a model does with a binary signal in one step. */
  datatype BinOp = Reset | Append(data: seq<byte>)

  function Operated(x: Cell, ops: seq<BinOp>): Cell {
    if ops == [] then x else
    var y := Operated(x, ops[..|ops| - 1]);
    match ops[|ops| - 1]
    case Reset => y.(buf := [], reset := true)
    case Append(data) => y.(buf := y.buf + data)
  }

  /** Marshal to the adapter. A buffer that was not reset is dropped. */
  function MarshalledOut(x: Cell): Cell {
    x.(bin := x.bin + (if x.reset then x.buf else []), buf := [])
  }

  /** Marshal to the model. */
  function MarshalledIn(x: Cell): Cell {
    x.(buf := x.buf + x.bin, bin := [], reset := false)
  }

  /** The adapter's value after receiving a Start. */
  function Incoming(x: Sv, d: Delta, k: Key): Sv {
    var y := if k in d.bins then x.(bin := x.bin + d.bins[k]) else x;
    if k in d.scalars then y.(val := d.scalars[k], fin := d.scalars[k]) else y
  }

  function SvOf(x: Cell): Sv {
    Sv(x.val, x.fin, x.bin)
  }

  function Notified(x: Cell, d: Delta, k: Key): Cell {
    var y := Incoming(SvOf(x), d, k);
    x.(val := y.val, fin := y.fin, bin := y.bin)
  }

  /** The vector of a model's channel: changed scalars and non-empty binaries. */
  function Outgoing(uid: nat, ch: nat, svs: map<nat, Sv>): Vector {
    Vector(uid, ch, map x | x in svs && svs[x].val != svs[x].fin :: svs[x].fin, map x | x in svs
        && svs[x].bin != [] :: svs[x].bin)
  }

  /** The bytes appended after the last reset; nothing without a reset. */
  function Contribution(ops: seq<BinOp>): seq<byte> {
    if ops == [] then [] else
    match ops[|ops| - 1]
    case Reset => []
    case Append(data) => if Reset in ops then Contribution(ops[..|ops| - 1]) + data else []
  }

  /** A model that resets contributes what it appended since; one that does not contributes nothing,
      whatever it received. */
  lemma {:induction false} OutIsContribution(x: Cell, ops: seq<BinOp>)
    requires !x.reset && x.bin == []
    ensures var y := MarshalledOut(Operated(x, ops));
            y.bin == Contribution(ops) && y.buf == [] && y.val == x.val && y.fin == x.fin
  {
    OperatedParts(x, ops);
  }

  lemma {:induction false} OperatedParts(x: Cell, ops: seq<BinOp>)
    requires !x.reset
    ensures var y := Operated(x, ops);
            && y.reset == (Reset in ops) && (y.reset ==> y.buf == Contribution(ops))
                && (!y.reset ==> Contribution(ops) == [])
            && y.val == x.val && y.fin == x.fin && y.bin == x.bin
  {
    if ops != [] {
      var n := |ops| - 1;
      OperatedParts(x, ops[..n]);
      assert ops == ops[..n] + [ops[n]];
    }
  }

  // ---- Delivery ----

  /** The bytes for signal k in a sequence of Readies, in order. */
  function Gather(readies: seq<seq<Vector>>, k: Key): seq<byte> {
    if readies == [] then [] else Gather(readies[..|readies| - 1], k) + GatherOne(readies[|readies| - 1], k)
  }

  function GatherOne(vs: seq<Vector>, k: Key): seq<byte> {
    if vs == [] then [] else GatherOne(vs[..|vs| - 1], k) + BinOf(vs[|vs| - 1], k)
  }

  lemma {:induction false} WrittenBins(sv: map<Key, Sv>, vs: seq<Vector>, k: Key)
    requires k in sv
    ensures WriteAll(sv, vs)[k].bin == sv[k].bin + GatherOne(vs, k) && WriteAll(sv, vs)[k].val == sv[k].val
  {
    if vs != [] {
      WrittenBins(sv, vs[..|vs| - 1], k);
    }
  }

  /** Every vector writes only values other than val. */
  ghost predicate Differs(sv: map<Key, Sv>, vs: seq<Vector>) {
    forall i, x | 0 <= i < |vs| && x in vs[i].scalars :: vs[i].scalars[x] != ValOf(sv, Key(vs[i].ch, x))
  }

  predicate Writes(vs: seq<Vector>, k: Key) {
    exists i :: 0 <= i < |vs| && vs[i].ch == k.ch && k.sig in vs[i].scalars
  }

  /** A written signal ends up changed, and a changed one stays changed. */
  lemma {:induction false} WrittenChanged(sv: map<Key, Sv>, vs: seq<Vector>, k: Key)
    requires k in sv && Differs(sv, vs) && (sv[k].val != sv[k].fin || Writes(vs, k))
    ensures WriteAll(sv, vs)[k].val != WriteAll(sv, vs)[k].fin
  {
    hide Writes, Differs;
    if vs == [] {
      NoWrites(k);
    } else {
      var n := |vs| - 1;
      LastOrBefore(sv, vs, k);
      WrittenBins(sv, vs[..n], k);
      if !(vs[n].ch == k.ch && k.sig in vs[n].scalars) {
        WrittenChanged(sv, vs[..n], k);
      }
    }
  }

  lemma {:induction false} NoWrites(k: Key)
    ensures !Writes([], k)
  {}

  lemma {:induction false} LastOrBefore(sv: map<Key, Sv>, vs: seq<Vector>, k: Key)
    requires vs != [] && Differs(sv, vs)
    ensures var n := |vs| - 1;
            && Differs(sv, vs[..n])
            && (vs[n].ch == k.ch && k.sig in vs[n].scalars ==> vs[n].scalars[k.sig] != ValOf(sv, k))
            && (Writes(vs, k) ==> Writes(vs[..n], k) || (vs[n].ch == k.ch && k.sig in vs[n].scalars))
  {
    if Writes(vs, k) {
      var i :| 0 <= i < |vs| && vs[i].ch == k.ch && k.sig in vs[i].scalars;
      assert i < |vs| - 1 ==> vs[..|vs| - 1][i] == vs[i];
    }
  }
}
