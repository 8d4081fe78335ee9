/** The loopback adapter: shared vectors in place of messages, compared with the message bus. */
module Loopback {
  import opened Binary
  import opened BusData

  /** A model's signals by vector index. */
  type Model = map<nat, Sv>

  // ---- The shared vectors ----

  /** No binaries. */
  function NoBinaries(n: nat): (r: seq<seq<byte>>)
    ensures |r| == n
  {
    seq(n, _ => [])
  }

  /** What one model does to the scalars: bytes on a signal keep its value out. */
  function ReadyScalars(scalar: seq<real>, m: Model): (r: seq<real>)
    ensures |r| == |scalar|
  {
    seq(|scalar|, i requires 0 <= i < |scalar| => if i in m && m[i].bin == []
        && m[i].val != m[i].fin then m[i].fin else scalar[i])
  }

  function ReadyBinaries(binary: seq<seq<byte>>, m: Model): (r: seq<seq<byte>>)
    ensures |r| == |binary|
  {
    seq(|binary|, i requires 0 <= i < |binary| => if i in m then binary[i] + m[i].bin else binary[i])
  }

  function ScalarsAfter(scalar: seq<real>, models: seq<Model>): (r: seq<real>)
    ensures |r| == |scalar|
  {
    if models == [] then scalar else ReadyScalars(ScalarsAfter(scalar, models[..|models| - 1]), models[|models| - 1])
  }

  function BinariesAfter(binary: seq<seq<byte>>, models: seq<Model>): (r: seq<seq<byte>>)
    ensures |r| == |binary|
  {
    if models == [] then binary else ReadyBinaries(BinariesAfter(binary, models[..|models| - 1]), models[|models| - 1])
  }

  /** Reading the vectors back: a signal with bytes takes only the bytes. */
  function Started(x: Sv, scalar: real, binary: seq<byte>): Sv {
    if binary != [] then x.(bin := x.bin + binary) else x.(val := scalar, fin := scalar)
  }

  function Consumed(m: Model): Model {
    map i | i in m :: m[i].(bin := [])
  }

  function StartedModel(m: Model, scalar: seq<real>, binary: seq<seq<byte>>): Model
    requires |binary| == |scalar| && Within(m, |scalar|)
  {
    map i | i in m :: Started(m[i], scalar[i], binary[i])
  }

  // ---- The adapter ----

  datatype Signal = Signal(vi: nat, sv: Sv)
  datatype AdapterState = NONE | READY | START

  ghost predicate Indexes(s: seq<Signal>, n: nat) {
    (forall i | 0 <= i < |s| :: s[i].vi < n) && forall i, j | 0 <= i < j < |s| :: s[i].vi != s[j].vi
  }

  function ModelOf(s: seq<Signal>): Model {
    if s == [] then map[] else ModelOf(s[..|s| - 1])[s[|s| - 1].vi := s[|s| - 1].sv]
  }

  lemma {:induction false} ModelAt(s: seq<Signal>, n: nat, vi: nat)
    requires Indexes(s, n)
    ensures vi in ModelOf(s) <==> exists i :: 0 <= i < |s| && s[i].vi == vi
    ensures forall i | 0 <= i < |s| && s[i].vi == vi :: ModelOf(s)[vi] == s[i].sv
  {
    if s != [] {
      var k := |s| - 1;
      ModelAt(s[..k], n, vi);
      assert forall i | 0 <= i < k :: s[..k][i] == s[i];
      if vi in ModelOf(s[..k]) {
        var i :| 0 <= i < k && s[..k][i].vi == vi;
        assert s[i].vi == vi;
      }
    }
  }

  function Models(ms: seq<seq<Signal>>): (r: seq<Model>)
    ensures |r| == |ms|
  {
    seq(|ms|, k requires 0 <= k < |ms| => ModelOf(ms[k]))
  }

  class Loopback {
    const scalar: array<real>
    const binary: array<seq<byte>>
    const step: real
    var models: seq<seq<Signal>>
    var times: seq<(real, real)>
    var state: AdapterState

    ghost predicate Valid()
      reads this
    {
      && binary.Length == scalar.Length && |times| == |models|
      && forall k | 0 <= k < |models| :: Indexes(models[k], scalar.Length)
    }

    constructor (n: nat, ms: seq<seq<Signal>>, stepSize: real)
      requires forall k | 0 <= k < |ms| :: Indexes(ms[k], n)
      ensures Valid() && models == ms && step == stepSize && state == NONE && fresh(scalar) && fresh(binary)
      ensures scalar.Length == n && (forall i | 0 <= i < n :: scalar[i] == 0.0 && binary[i] == [])
    {
      scalar := new real[n](_ => 0.0);
      binary := new seq<byte>[n](_ => []);
      step, models, times, state := stepSize, ms, seq(|ms|, _ => (0.0, 0.0)), NONE;
    }

    /** The first i signals of model k, which were sig, are in the vectors, which were s0 and b0. */
    ghost predicate Written(k: nat, sig: seq<Signal>, i: nat, s0: seq<real>, b0: seq<seq<byte>>)
      requires k < |models| && i <= |sig|
      reads this, scalar, binary
    {
      && |s0| == |b0| == scalar.Length == binary.Length && |models[k]| == |sig|
      && (forall j | 0 <= j < |sig| ::
            models[k][j] == if j < i then Signal(sig[j].vi, sig[j].sv.(bin := [])) else sig[j])
      && (forall v | 0 <= v < scalar.Length ::
            && scalar[v] == (if Before(sig, i, v) then ReadyScalars(s0, ModelOf(sig))[v] else s0[v])
            && binary[v] == (if Before(sig, i, v) then ReadyBinaries(b0, ModelOf(sig))[v] else b0[v]))
    }

    method ReadySignal(k: nat, ghost sig: seq<Signal>, i: nat, ghost s0: seq<real>, ghost b0: seq<seq<byte>>)
      requires k < |models| && i < |sig| && Written(k, sig, i, s0, b0) && Indexes(sig, scalar.Length)
      modifies this`models, scalar, binary
      ensures |models| == |old(models)| && models == old(models)[k := models[k]] && Written(k, sig, i + 1, s0, b0)
    {
      var x := models[k][i];
      ModelAt(sig, scalar.Length, x.vi);
      BeforeNext(sig, i);
      assert !Before(sig, i, x.vi);
      hide ModelOf, Before;
      if |x.sv.bin| > 0 {
        binary[x.vi] := binary[x.vi] + x.sv.bin;
        models := models[k := models[k][i := Signal(x.vi, x.sv.(bin := []))]];
      } else if x.sv.val != x.sv.fin {
        scalar[x.vi] := x.sv.fin;
      }
    }

    /** One model's signals go into the vectors; its bytes are consumed. */
    method ReadyUpdate(k: nat)
      requires Valid() && k < |models|
      modifies this`models, scalar, binary
      ensures Valid() && scalar[..] == ReadyScalars(old(scalar[..]), ModelOf(old(models)[k]))
      ensures binary[..] == ReadyBinaries(old(binary[..]), ModelOf(old(models)[k]))
      ensures Models(models) == Models(old(models))[k := Consumed(ModelOf(old(models)[k]))]
    {
      hide ModelOf, Before, ReadyScalars, ReadyBinaries;
      ghost var was, sig := models, models[k];
      ghost var s0, b0 := scalar[..], binary[..];
      var n := |models[k]|;
      NoneBefore(sig);
      for i := 0 to n
        invariant |models| == |was| && models == was[k := models[k]] && Written(k, sig, i, s0, b0)
      {
        ReadySignal(k, sig, i, s0, b0);
      }
      AllBefore(sig, scalar.Length, s0, b0);
      ConsumedModel(sig, models[k], scalar.Length);
      assert Models(models) == Models(was)[k := Consumed(ModelOf(sig))];
    }

    /** Ready: the binaries of the last cycle are dropped once, then every model writes, in order. */
    method ModelReady()
      requires Valid()
      modifies this`models, this`state, scalar, binary
      ensures Valid() && state == READY && scalar[..] == ScalarsAfter(old(scalar[..]), Models(old(models)))
      ensures var b := if old(state) == READY then old(binary[..]) else NoBinaries(binary.Length);
              binary[..] == BinariesAfter(b, Models(old(models)))
      ensures |models| == |old(models)|
      ensures forall k | 0 <= k < |models| :: ModelOf(models[k]) == Consumed(ModelOf(old(models)[k]))
    {
      hide ReadyScalars, ReadyBinaries, ModelOf, Indexes;
      ghost var was, s0 := Models(models), scalar[..];
      if state != READY {
        state := READY;
        forall i | 0 <= i < binary.Length {
          binary[i] := [];
        }
        assert binary[..] == NoBinaries(binary.Length);
      }
      ghost var b0 := binary[..];
      for k := 0 to |models|
        invariant Valid() && |models| == |was| && state == READY
        invariant scalar[..] == ScalarsAfter(s0, was[..k]) && binary[..] == BinariesAfter(b0, was[..k])
        invariant forall j | 0 <= j < |was| :: ModelOf(models[j]) == if j < k then Consumed(was[j]) else was[j]
      {
        assert was[..k + 1][..k] == was[..k];
        ReadyUpdate(k);
        assert forall j | 0 <= j < |was| :: ModelOf(models[j]) == Models(models)[j];
      }
      assert was[..|was|] == was;
    }

    method StartUpdate(k: nat)
      requires Valid() && k < |models|
      modifies this`models, this`times
      ensures Valid() && |models| == |old(models)|
      ensures times == old(times)[k := (old(times)[k].0, old(times)[k].0 + step)]
      ensures forall j | 0 <= j < |models| && j != k :: models[j] == old(models)[j]
      ensures Within(ModelOf(old(models)[k]), scalar.Length)
      ensures ModelOf(models[k]) == StartedModel(ModelOf(old(models)[k]), scalar[..], binary[..])
    {
      ghost var was, sig := models, models[k];
      times := times[k := (times[k].0, times[k].0 + step)];
      ghost var ts := times;
      var n := |models[k]|;
      for i := 0 to n
        invariant times == ts && |models| == |was| && |models[k]| == |sig|
        invariant forall j | 0 <= j < |was| && j != k :: models[j] == was[j]
        invariant forall j | i <= j < |sig| :: models[k][j] == sig[j]
        invariant forall j | 0 <= j < i ::
                    models[k][j] == Signal(sig[j].vi, Started(sig[j].sv, scalar[sig[j].vi], binary[sig[j].vi]))
      {
        var x := models[k][i];
        if |binary[x.vi]| > 0 {
          models := models[k := models[k][i := Signal(x.vi, x.sv.(bin := x.sv.bin + binary[x.vi]))]];
        } else {
          models := models[k := models[k][i := Signal(x.vi, x.sv.(val := scalar[x.vi], fin := scalar[x.vi]))]];
        }
      }
      ModelIndexed(sig, scalar.Length);
      StartedSignals(sig, models[k], scalar[..], binary[..]);
    }

    /** Start: every model reads the vectors. */
    method ModelStart()
      requires Valid()
      modifies this`models, this`times, this`state
      ensures Valid() && state == START && |models| == |old(models)|
      ensures forall k | 0 <= k < |models| :: Within(ModelOf(old(models)[k]), scalar.Length)
      ensures forall k | 0 <= k < |models| ::
                ModelOf(models[k]) == StartedModel(ModelOf(old(models)[k]), scalar[..], binary[..])
      ensures forall k | 0 <= k < |models| :: times[k] == (old(times)[k].0, old(times)[k].0 + step)
      ensures forall k | 0 <= k < |models| ::
                TakesVectors(ModelOf(old(models)[k]), ModelOf(models[k]), scalar[..], binary[..])
    {
      hide ModelOf, StartedModel, Indexes, Within, TakesVectors;
      ghost var was, ts := models, times;
      state := START;
      for k := 0 to |models|
        invariant Valid() && |models| == |was| && state == START
        invariant forall j | 0 <= j < k :: Within(ModelOf(was[j]), scalar.Length)
        invariant forall j | 0 <= j < k :: ModelOf(models[j]) == StartedModel(ModelOf(was[j]), scalar[..], binary[..])
        invariant forall j | k <= j < |was| :: models[j] == was[j]
        invariant forall j | 0 <= j < |was| :: times[j] == if j < k then (ts[j].0, ts[j].0 + step) else ts[j]
      {
        StartUpdate(k);
      }
      forall k | 0 <= k < |models| ensures TakesVectors(ModelOf(was[k]), ModelOf(models[k]), scalar[..], binary[..]) {
        StartedTakes(ModelOf(was[k]), scalar[..], binary[..]);
      }
    }

    /** Ready and Start: every model has what the vectors make of all models' signals. */
    method Cycle()
      requires Valid()
      modifies this`models, this`times, this`state, scalar, binary
      ensures Valid() && state == START && |models| == |old(models)|
      ensures scalar[..] == ScalarsAfter(old(scalar[..]), Models(old(models)))
      ensures forall k | 0 <= k < |models| :: times[k] == (old(times)[k].0, old(times)[k].0 + step)
      ensures old(state) != READY ==>
                forall k | 0 <= k < |models| ::
                  IsViaVectors(old(scalar[..]), Models(old(models)), k, ModelOf(models[k]))
    {
      hide ModelOf, StartedModel, ScalarsAfter, BinariesAfter, Indexes;
      ghost var was, s0, state0 := Models(models), scalar[..], state;
      ModelReady();
      ghost var ready := Models(models);
      ModelStart();
      if state0 != READY {
        forall k | 0 <= k < |models| ensures IsViaVectors(s0, was, k, ModelOf(models[k])) {
          assert ready[k] == Consumed(was[k]);
          CycleModel(s0, was, k);
        }
      }
    }
  }

  /** m is what model k has after a Ready and a Start through the vectors. */
  ghost predicate IsViaVectors(scalar: seq<real>, models: seq<Model>, k: nat, m: Model)
    requires k < |models|
  {
    m.Keys == models[k].Keys && forall vi | vi in m :: vi < |scalar| && m[vi] == ViaVectors(scalar, models, k, vi)
  }

  lemma {:induction false} CycleModel(scalar: seq<real>, models: seq<Model>, k: nat)
    requires k < |models| && Within(Consumed(models[k]), |scalar|)
    ensures IsViaVectors(scalar, models, k, StartedModel(Consumed(models[k]), ScalarsAfter(scalar, models),
                                                         BinariesAfter(NoBinaries(|scalar|), models)))
  {
    hide ScalarsAfter, BinariesAfter;
  }

  predicate Within(m: Model, n: nat) {
    forall i | i in m :: i < n
  }

  lemma {:induction false} ModelIndexed(s: seq<Signal>, n: nat)
    requires Indexes(s, n)
    ensures Within(ModelOf(s), n)
  {
    forall v | v in ModelOf(s) ensures v < n {
      ModelAt(s, n, v);
    }
  }

  /** Bytes in the vector are appended to the signal's, which keeps its value; without bytes it takes the scalar. */
  ghost predicate TakesVectors(was: Model, now: Model, scalar: seq<real>, binary: seq<seq<byte>>) {
    && now.Keys == was.Keys && |binary| == |scalar|
    && forall vi | vi in was :: vi < |scalar| &&
         now[vi] == if binary[vi] != [] then Sv(was[vi].val, was[vi].fin, was[vi].bin + binary[vi])
                    else Sv(scalar[vi], scalar[vi], was[vi].bin)
  }

  lemma {:induction false} StartedTakes(m: Model, scalar: seq<real>, binary: seq<seq<byte>>)
    requires |binary| == |scalar| && Within(m, |scalar|)
    ensures TakesVectors(m, StartedModel(m, scalar, binary), scalar, binary)
  {}

  lemma {:induction false} NothingStarted(scalar: seq<real>, binary: seq<seq<byte>>)
    requires |binary| == |scalar|
    ensures Within(map[], |scalar|) && StartedModel(map[], scalar, binary) == map[]
  {}

  lemma {:induction false} StartedUpdate(m: Model, vi: nat, sv: Sv, scalar: seq<real>, binary: seq<seq<byte>>)
    requires Within(m, |scalar|) && vi < |scalar| == |binary|
    ensures Within(m[vi := sv], |scalar|)
    ensures StartedModel(m[vi := sv], scalar, binary) ==
        StartedModel(m, scalar, binary)[vi := Started(sv, scalar[vi], binary[vi])]
  {}

  lemma {:induction false} StartedSignals(s: seq<Signal>, r: seq<Signal>, scalar: seq<real>, binary: seq<seq<byte>>)
    requires Indexes(s, |scalar|) && |binary| == |scalar| && |r| == |s| && Within(ModelOf(s), |scalar|)
    requires forall j | 0 <= j < |s| :: r[j] == Signal(s[j].vi, Started(s[j].sv, scalar[s[j].vi], binary[s[j].vi]))
    ensures ModelOf(r) == StartedModel(ModelOf(s), scalar, binary) && Indexes(r, |scalar|)
  {
    hide Started, StartedModel, Within;
    if s != [] {
      var n := |s| - 1;
      ModelIndexed(s[..n], |scalar|);
      StartedSignals(s[..n], r[..n], scalar, binary);
      StartedUpdate(ModelOf(s[..n]), s[n].vi, s[n].sv, scalar, binary);
    } else {
      NothingStarted(scalar, binary);
    }
  }

  /** v is the index of one of the first i signals. */
  predicate Before(s: seq<Signal>, i: nat, v: nat)
    requires i <= |s|
  {
    exists j :: 0 <= j < i && s[j].vi == v
  }

  lemma {:induction false} NoneBefore(s: seq<Signal>)
    ensures forall v: nat :: !Before(s, 0, v)
  {}

  lemma {:induction false} BeforeNext(s: seq<Signal>, i: nat)
    requires i < |s|
    ensures forall v: nat :: Before(s, i + 1, v) <==> Before(s, i, v) || s[i].vi == v
  {
    forall v: nat ensures Before(s, i + 1, v) <==> Before(s, i, v) || s[i].vi == v {
      if Before(s, i + 1, v) {
        var j :| 0 <= j < i + 1 && s[j].vi == v;
        assert j < i || s[i].vi == v;
      }
      if Before(s, i, v) {
        var j :| 0 <= j < i && s[j].vi == v;
        assert 0 <= j < i + 1;
      }
    }
  }

  lemma {:induction false} AllBefore(s: seq<Signal>, n: nat, scalar: seq<real>, binary: seq<seq<byte>>)
    requires Indexes(s, n) && |scalar| == |binary| == n
    ensures forall v: nat | v < n && !Before(s, |s|, v) ::
              ReadyScalars(scalar, ModelOf(s))[v] == scalar[v] && ReadyBinaries(binary, ModelOf(s))[v] == binary[v]
  {
    forall v: nat | v < n && !Before(s, |s|, v)
      ensures ReadyScalars(scalar, ModelOf(s))[v] == scalar[v] && ReadyBinaries(binary, ModelOf(s))[v] == binary[v]
    {
      ModelAt(s, n, v);
    }
  }

  lemma {:induction false} ConsumedModel(s: seq<Signal>, r: seq<Signal>, n: nat)
    requires Indexes(s, n) && |r| == |s| && forall j | 0 <= j < |s| :: r[j] == Signal(s[j].vi, s[j].sv.(bin := []))
    ensures ModelOf(r) == Consumed(ModelOf(s)) && Indexes(r, n)
  {
    if s != [] {
      ConsumedModel(s[..|s| - 1], r[..|s| - 1], n);
    }
  }

  // ---- The message bus, for the same models ----

  function KeyOf(vi: nat): Key {
    Key(0, vi)
  }

  /** One Ready with all models' vectors, in order. */
  function Vectors(models: seq<Model>): (r: seq<Vector>)
    ensures |r| == |models|
  {
    seq(|models|, k requires 0 <= k < |models| => Outgoing(k, 0, models[k]))
  }

  /** The bus has the value, and is between cycles. */
  predicate Holds(bus: map<Key, Sv>, vi: nat, value: real) {
    KeyOf(vi) in bus && bus[KeyOf(vi)] == Sv(value, value, [])
  }

  /** What a model has after the message bus's cycle. */
  function ViaBus(bus: map<Key, Sv>, models: seq<Model>, k: nat, vi: nat): Sv
    requires k < |models| && vi in models[k]
  {
    Incoming(models[k][vi].(bin := []), DeltaOf(WriteAll(bus, Vectors(models))), KeyOf(vi))
  }

  /** What it has after a Ready and a Start through the vectors. */
  function ViaVectors(scalar: seq<real>, models: seq<Model>, k: nat, vi: nat): Sv
    requires k < |models| && vi in models[k] && vi < |scalar|
  {
    var bytes := BinariesAfter(NoBinaries(|scalar|), models)[vi];
    Started(models[k][vi].(bin := []), ScalarsAfter(scalar, models)[vi], bytes)
  }

  /** The last value written, by the models that write the scalar. */
  function LastWritten(models: seq<Model>, vi: nat, was: real): real {
    if models == [] then was else
    var m := models[|models| - 1];
    if vi in m && m[vi].val != m[vi].fin then m[vi].fin else LastWritten(models[..|models| - 1], vi, was)
  }

  /** The bytes appended, in the order of the models. */
  function AllBytes(models: seq<Model>, vi: nat): seq<byte> {
    if models == [] then [] else
    var m := models[|models| - 1];
    AllBytes(models[..|models| - 1], vi) + if vi in m then m[vi].bin else []
  }

  predicate SomeBytes(models: seq<Model>, vi: nat) {
    exists k :: 0 <= k < |models| && vi in models[k] && models[k][vi].bin != []
  }

  predicate SomeWrite(models: seq<Model>, vi: nat) {
    exists k :: 0 <= k < |models| && vi in models[k] && models[k][vi].val != models[k][vi].fin
  }

  /** Every model holding vi has the vector's value: what a Start left. */
  predicate InStep(models: seq<Model>, vi: nat, value: real) {
    forall k | 0 <= k < |models| && vi in models[k] :: models[k][vi].val == value
  }

  lemma {:induction false} BusWrites(bus: map<Key, Sv>, value: real, models: seq<Model>, vi: nat)
    requires Holds(bus, vi, value)
    ensures var sv := WriteAll(bus, Vectors(models));
            KeyOf(vi) in sv && sv[KeyOf(vi)] == Sv(value, LastWritten(models, vi, value), AllBytes(models, vi))
  {
    if models != [] {
      var n := |models| - 1;
      BusWrites(bus, value, models[..n], vi);
      assert Vectors(models)[..n] == Vectors(models[..n]);
      var x := WriteAll(bus, Vectors(models[..n]))[KeyOf(vi)];
      assert x.bin + [] == x.bin;
    }
  }

  lemma {:induction false} LastModel(models: seq<Model>, vi: nat)
    requires models != []
    ensures var n, m := |models| - 1, models[|models| - 1];
            && (SomeBytes(models, vi) <==> SomeBytes(models[..n], vi) || (vi in m && m[vi].bin != []))
            && (SomeWrite(models, vi) <==> SomeWrite(models[..n], vi) || (vi in m && m[vi].val != m[vi].fin))
  {
    var n := |models| - 1;
    if SomeBytes(models[..n], vi) {
      var k :| 0 <= k < n && vi in models[..n][k] && models[..n][k][vi].bin != [];
      assert models[k][vi].bin != [];
    }
    if SomeWrite(models[..n], vi) {
      var k :| 0 <= k < n && vi in models[..n][k] && models[..n][k][vi].val != models[..n][k][vi].fin;
      assert models[k][vi].val != models[k][vi].fin;
    }
  }

  lemma {:induction false} VectorWrites(scalar: seq<real>, models: seq<Model>, vi: nat)
    requires vi < |scalar|
    ensures BinariesAfter(NoBinaries(|scalar|), models)[vi] == AllBytes(models, vi)
    ensures !SomeBytes(models, vi) ==> ScalarsAfter(scalar, models)[vi] == LastWritten(models, vi, scalar[vi])
    ensures !SomeWrite(models, vi) ==> ScalarsAfter(scalar, models)[vi] == scalar[vi]
    ensures SomeBytes(models, vi) <==> AllBytes(models, vi) != []
  {
    if models != [] {
      hide SomeBytes, SomeWrite;
      var n := |models| - 1;
      VectorWrites(scalar, models[..n], vi);
      LastModel(models, vi);
      var b := AllBytes(models[..n], vi);
      assert b + [] == b;
    }
  }

  /** In step, a write is a change. */
  lemma {:induction false} WriteChanges(models: seq<Model>, vi: nat, value: real)
    requires InStep(models, vi, value)
    ensures LastWritten(models, vi, value) != value <==> SomeWrite(models, vi)
  {
    if models != [] {
      var n := |models| - 1;
      assert forall k | 0 <= k < n :: models[..n][k] == models[k];
      WriteChanges(models[..n], vi, value);
      LastModel(models, vi);
      hide SomeBytes, SomeWrite;
    }
  }

  predicate Mixed(models: seq<Model>, vi: nat) {
    SomeBytes(models, vi) && SomeWrite(models, vi)
  }

  /**
   * The vectors do to a signal what the message bus does - same last writer, same order of bytes - exactly when it is
   * not both written and appended to in the cycle: with bytes in the vector the loopback drops the scalar.
   */
  lemma {:induction false} LoopbackIsBus(scalar: seq<real>, bus: map<Key, Sv>, models: seq<Model>, k: nat, vi: nat)
    requires vi < |scalar| && Holds(bus, vi, scalar[vi]) && InStep(models, vi, scalar[vi])
    requires k < |models| && vi in models[k]
    ensures ViaVectors(scalar, models, k, vi) == ViaBus(bus, models, k, vi) <==> !Mixed(models, vi)
  {
    hide WriteAll, ScalarsAfter, BinariesAfter, LastWritten, AllBytes, SomeBytes, Vectors, Holds;
    BusWrites(bus, scalar[vi], models, vi);
    VectorWrites(scalar, models, vi);
    WriteChanges(models, vi, scalar[vi]);
  }

  /** Under the same condition vectors, bus and models have the same value for the next cycle. */
  lemma {:induction false} LoopbackStaysInStep(scalar: seq<real>, bus: map<Key, Sv>, models: seq<Model>, vi: nat)
    requires vi < |scalar| && Holds(bus, vi, scalar[vi]) && InStep(models, vi, scalar[vi]) && !Mixed(models, vi)
    ensures Holds(Resolve(WriteAll(bus, Vectors(models))), vi, ScalarsAfter(scalar, models)[vi])
    ensures forall k | 0 <= k < |models| && vi in models[k] ::
              ViaVectors(scalar, models, k, vi).val == ViaVectors(scalar, models, k, vi).fin
              == ScalarsAfter(scalar, models)[vi]
  {
    hide WriteAll, ScalarsAfter, BinariesAfter, LastWritten, AllBytes, SomeBytes, Vectors;
    BusWrites(bus, scalar[vi], models, vi);
    VectorWrites(scalar, models, vi);
    WriteChanges(models, vi, scalar[vi]);
  }

  /** A model that writes a scalar and appends bytes to the same signal: the value is lost. */
  lemma {:induction false} MixedSignalLost()
    ensures var models := [map[0 := Sv(0.0, 1.0, [7])]];
            && ViaBus(map[KeyOf(0) := Sv(0.0, 0.0, [])], models, 0, 0) == Sv(1.0, 1.0, [7])
            && ViaVectors([0.0], models, 0, 0) == Sv(0.0, 1.0, [7])
  {
    var models: seq<Model> := [map[0 := Sv(0.0, 1.0, [7])]];
    assert models[..0] == [];
    BusWrites(map[KeyOf(0) := Sv(0.0, 0.0, [])], 0.0, models, 0);
    assert LastWritten(models, 0, 0.0) == 1.0 && AllBytes(models, 0) == [7];
    VectorWrites([0.0], models, 0);
    assert SomeBytes(models, 0);
  }

  // ---- Whole runs ----

  /** The vectors after the cycles of a run, each given by the models' signals at its Ready. */
  function ScalarsOver(scalar: seq<real>, run: seq<seq<Model>>): (r: seq<real>)
    ensures |r| == |scalar|
  {
    if run == [] then scalar else ScalarsAfter(ScalarsOver(scalar, run[..|run| - 1]), run[|run| - 1])
  }

  function BusOver(bus: map<Key, Sv>, run: seq<seq<Model>>): map<Key, Sv> {
    if run == [] then bus else Resolve(WriteAll(BusOver(bus, run[..|run| - 1]), Vectors(run[|run| - 1])))
  }

  /** A model enters a cycle with the val that the last Start left it; what it writes and appends is its own. */
  ghost predicate Continues(scalar: seq<real>, run: seq<seq<Model>>, vi: nat)
    requires vi < |scalar|
  {
    && (|run| > 0 ==> InStep(run[0], vi, scalar[vi]))
    && forall t, k | 0 < t < |run| && 0 <= k < |run[t]| && vi in run[t][k] ::
         && k < |run[t - 1]| && vi in run[t - 1][k]
         && run[t][k][vi].val == ViaVectors(ScalarsOver(scalar, run[..t - 1]), run[t - 1], k, vi).val
  }

  lemma {:induction false} RunInStep(scalar: seq<real>, bus: map<Key, Sv>, run: seq<seq<Model>>, t: nat, vi: nat)
    requires vi < |scalar| && Holds(bus, vi, scalar[vi]) && Continues(scalar, run, vi) && t <= |run|
    requires forall u | 0 <= u < t :: !Mixed(run[u], vi)
    ensures Holds(BusOver(bus, run[..t]), vi, ScalarsOver(scalar, run[..t])[vi])
    ensures t < |run| ==> InStep(run[t], vi, ScalarsOver(scalar, run[..t])[vi])
  {
    hide ScalarsAfter, Mixed, ViaVectors, Holds;
    if t > 0 {
      var s, b := ScalarsOver(scalar, run[..t - 1]), BusOver(bus, run[..t - 1]);
      RunInStep(scalar, bus, run, t - 1, vi);
      LoopbackStaysInStep(s, b, run[t - 1], vi);
      assert run[..t][..t - 1] == run[..t - 1];
    }
  }

  /** While a signal is not mixed, every cycle of a run gives the models what the message bus would; then no longer. */
  lemma {:induction false} RunIsBus(scalar: seq<real>, bus: map<Key, Sv>, run: seq<seq<Model>>, t: nat, k: nat, vi: nat)
    requires vi < |scalar| && Holds(bus, vi, scalar[vi]) && Continues(scalar, run, vi) && t < |run|
    requires k < |run[t]| && vi in run[t][k] && forall u | 0 <= u < t :: !Mixed(run[u], vi)
    ensures ViaVectors(ScalarsOver(scalar, run[..t]), run[t], k, vi) == ViaBus(BusOver(bus, run[..t]), run[t], k, vi)
            <==> !Mixed(run[t], vi)
  {
    hide ScalarsOver, BusOver, Mixed, ViaVectors, ViaBus, Holds, Continues, InStep;
    RunInStep(scalar, bus, run, t, vi);
    LoopbackIsBus(ScalarsOver(scalar, run[..t]), BusOver(bus, run[..t]), run[t], k, vi);
  }
}
