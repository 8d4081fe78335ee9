/** The bus as it runs: sets of UIDs per channel, and signals updated in place by each message. */
module SimBus {
  import opened Binary
  import opened BusData
  import opened ChannelIndex
  import opened Checksum
  import opened LockStep
  import opened Scaling

  /** A SignalVector as it is sent. */
  datatype Wire = Wire(uid: nat, ch: nat, scalars: seq<(nat, real)>, bins: seq<(nat, seq<byte>)>)

  ghost predicate WireOk(w: Wire) {
    Uids(w.scalars) && Uids(w.bins)
  }

  function VectorOf(w: Wire): Vector {
    Vector(w.uid, w.ch, MapOf(w.scalars), MapOf(w.bins))
  }

  function VectorsOf(ws: seq<Wire>): (r: seq<Vector>)
    ensures |r| == |ws|
  {
    seq(|ws|, i requires 0 <= i < |ws| => VectorOf(ws[i]))
  }

  /** A Notify with a vector for every channel, in the order of the channels. */
  datatype Notify = Notify(time: real, stop: real, wires: seq<Wire>)

  ghost predicate NotifyOk(n: Notify) {
    forall ch | 0 <= ch < |n.wires| :: n.wires[ch].ch == ch && WireOk(n.wires[ch])
  }

  function DeltaIn(vs: seq<Vector>): Delta {
    Delta(map k | k in (set ch, u | 0 <= ch < |vs| && u in vs[ch].scalars :: Key(ch, u)) :: vs[k.ch].scalars[k.sig],
          map k | k in (set ch, u | 0 <= ch < |vs| && u in vs[ch].bins :: Key(ch, u)) :: vs[k.ch].bins[k.sig])
  }

  function StartIn(n: Notify): ToProc {
    Start(n.time, n.stop, DeltaIn(VectorsOf(n.wires)))
  }

  /** The signals of all channels in one map. */
  function Flat(sigs: seq<map<nat, Sv>>): map<Key, Sv> {
    map k | k in (set ch, u | 0 <= ch < |sigs| && u in sigs[ch] :: Key(ch, u)) :: sigs[k.ch][k.sig]
  }

  lemma {:induction false} SigWritten(m: map<nat, Sv>, w: Wire, u: nat)
    requires WireOk(w) && u in m
    ensures FinSetAll(AppendedAll(m, w.bins), w.scalars)[u] == Written(m[u], VectorOf(w), Key(w.ch, u))
  {
    hide AppendedAll, FinSetAll, MapOf;
    AppendedMap(m, w.bins, u);
    FinSetMap(AppendedAll(m, w.bins), w.scalars, u);
    assert m[u].bin + [] == m[u].bin;
  }

  lemma {:induction false} SigOther(x: Sv, w: Wire, k: Key)
    requires k.ch != w.ch
    ensures Written(x, VectorOf(w), k) == x
  {
    assert x.bin + [] == x.bin;
  }

  lemma {:induction false} FlatWrite(sigs: seq<map<nat, Sv>>, w: Wire)
    requires w.ch < |sigs| && WireOk(w)
    ensures Flat(sigs[w.ch := FinSetAll(AppendedAll(sigs[w.ch], w.bins), w.scalars)]) == Write(Flat(sigs), VectorOf(w))
  {
    hide AppendedAll, FinSetAll, MapOf, Written, WireOk, VectorOf;
    var r := sigs[w.ch := FinSetAll(AppendedAll(sigs[w.ch], w.bins), w.scalars)];
    assert forall k :: k in Flat(r) <==> k in Flat(sigs);
    forall k | k in Flat(sigs) ensures Flat(r)[k] == Write(Flat(sigs), VectorOf(w))[k] {
      if k.ch == w.ch {
        SigWritten(sigs[w.ch], w, k.sig);
      } else {
        SigOther(sigs[k.ch][k.sig], w, k);
      }
    }
  }

  lemma {:induction false} FlatResolve(sigs: seq<map<nat, Sv>>, r: seq<map<nat, Sv>>)
    requires |r| == |sigs| && forall ch | 0 <= ch < |sigs| :: r[ch] == ResolvedSignals(sigs[ch])
    ensures Flat(r) == Resolve(Flat(sigs))
  {}

  lemma {:induction false} FlatScalars(sigs: seq<map<nat, Sv>>, vs: seq<Vector>)
    requires |vs| == |sigs| && forall ch | 0 <= ch < |sigs| :: vs[ch].scalars == Outgoing(0, 0, sigs[ch]).scalars
    ensures DeltaIn(vs).scalars == DeltaOf(Flat(sigs)).scalars
  {
    var a, b := DeltaIn(vs).scalars, DeltaOf(Flat(sigs)).scalars;
    assert forall k :: k in a <==> k in b;
  }

  lemma {:induction false} FlatBins(sigs: seq<map<nat, Sv>>, vs: seq<Vector>)
    requires |vs| == |sigs| && forall ch | 0 <= ch < |sigs| :: vs[ch].bins == Outgoing(0, 0, sigs[ch]).bins
    ensures DeltaIn(vs).bins == DeltaOf(Flat(sigs)).bins
  {
    var a, b := DeltaIn(vs).bins, DeltaOf(Flat(sigs)).bins;
    assert forall k :: k in a <==> k in b;
  }

  lemma {:induction false} FlatDelta(sigs: seq<map<nat, Sv>>, vs: seq<Vector>)
    requires |vs| == |sigs|
    requires forall ch | 0 <= ch < |sigs| ::
               vs[ch].scalars == Outgoing(0, 0, sigs[ch]).scalars && vs[ch].bins == Outgoing(0, 0, sigs[ch]).bins
    ensures DeltaIn(vs) == DeltaOf(Flat(sigs))
  {
    hide DeltaIn, DeltaOf, Flat, Outgoing;
    FlatScalars(sigs, vs);
    FlatBins(sigs, vs);
  }

  lemma {:induction false} FlatIndexed(sigs: seq<map<nat, Sv>>, ch: nat, uids: set<nat>, m: map<nat, Sv>)
    requires ch < |sigs|
    requires m == WithUids(sigs[ch], uids)
    ensures Flat(sigs[ch := m]) == Indexed(Flat(sigs), ch, uids)
  {
    var a, b := Flat(sigs[ch := m]), Indexed(Flat(sigs), ch, uids);
    FlatAt(sigs);
    FlatAt(sigs[ch := m]);
    hide Flat;
    forall k ensures (k in a <==> k in b) && (k in a ==> a[k] == b[k]) {
      assert k in b <==> k in Flat(sigs) || (k.ch == ch && k.sig in uids);
    }
  }

  lemma {:induction false} FlatAt(sigs: seq<map<nat, Sv>>)
    ensures forall k :: k in Flat(sigs) <==> k.ch < |sigs| && k.sig in sigs[k.ch]
    ensures forall k | k in Flat(sigs) :: Flat(sigs)[k] == sigs[k.ch][k.sig]
  {}

  class SimBus {
    const channels: seq<Channel>
    const expected: seq<nat>
    const step: real
    var registered: seq<set<nat>>
    var ready: seq<set<nat>>
    var busTime: real
    var correction: real
    var exit: bool

    ghost predicate Valid()
      reads this, channels
    {
      && |expected| == |registered| == |ready| == |channels| && correction == 0.0
      && (forall i, j | 0 <= i < j < |channels| :: channels[i] != channels[j])
      && (forall ch | 0 <= ch < |channels| :: channels[ch].Valid() && channels[ch].indexed)
    }

    ghost function Sigs(): (r: seq<map<nat, Sv>>)
      reads channels
      ensures |r| == |channels| && forall ch | 0 <= ch < |r| :: r[ch] == channels[ch].Signals()
    {
      seq(|channels|, ch requires 0 <= ch < |channels| reads channels => channels[ch].Signals())
    }

    /** The state of this bus, with the history of b. */
    ghost function AsBus(b: Bus): Bus
      reads this, channels
    {
      b.(reg := registered, rdy := ready, time := busTime, sv := Flat(Sigs()), exit := exit)
    }

    /** Time starts a step before 0. */
    constructor (chs: seq<Channel>, counts: seq<nat>, stepSize: real)
      requires |counts| == |chs| && (forall i, j | 0 <= i < j < |chs| :: chs[i] != chs[j])
      requires forall ch | 0 <= ch < |chs| :: chs[ch].Valid() && chs[ch].indexed
      ensures Valid() && channels == chs && expected == counts && step == stepSize
      ensures registered == ready == seq(|chs|, ch => {}) && busTime == 0.0 - stepSize && !exit
    {
      channels, expected, step := chs, counts, stepSize;
      registered, ready := seq(|chs|, ch => {}), seq(|chs|, ch => {});
      busTime, correction, exit := 0.0 - stepSize, 0.0, false;
    }

    // ---- States ----

    predicate Complete(sets: seq<set<nat>>)
      requires |sets| == |expected|
    {
      forall ch | 0 <= ch < |sets| :: expected[ch] == |sets[ch]|
    }

    /** With the expected counts those of the configuration, complete sets are what the protocol machine waits for. */
    lemma {:induction false} CompleteIsReady(c: Config, b: Bus)
      requires c.channels == |expected| == |b.reg| == |b.rdy|
      requires forall ch | 0 <= ch < |expected| :: expected[ch] == |c.Members(ch)|
      ensures Complete(b.reg) <==> LockStep.NetworkReady(c, b)
      ensures Complete(b.rdy) <==> LockStep.ModelsReady(c, b)
    {
      forall ch | 0 <= ch < |expected|
        ensures expected[ch] == |b.reg[ch]| <==> |c.Members(ch)| == |b.reg[ch]|
        ensures expected[ch] == |b.rdy[ch]| <==> |c.Members(ch)| == |b.rdy[ch]|
      {}
    }

    method NetworkReady() returns (r: bool)
      requires |registered| == |expected|
      ensures r == Complete(registered)
    {
      for ch := 0 to |registered|
        invariant forall d | 0 <= d < ch :: expected[d] == |registered[d]|
      {
        if expected[ch] != |registered[ch]| {
          return false;
        }
      }
      r := true;
    }

    method ModelsReady() returns (r: bool)
      requires |ready| == |expected|
      ensures r == Complete(ready)
    {
      for ch := 0 to |ready|
        invariant forall d | 0 <= d < ch :: expected[d] == |ready[d]|
      {
        if expected[ch] != |ready[ch]| {
          return false;
        }
      }
      r := true;
    }

    method ModelsToStart()
      modifies this`ready
      ensures ready == seq(|old(ready)|, ch => {})
    {
      ghost var was := ready;
      for ch := 0 to |ready|
        invariant |ready| == |was| && forall d | 0 <= d < ch :: ready[d] == {}
      {
        ready := ready[ch := {}];
      }
      assert ready == seq(|was|, ch => {});
    }

    method ModelAtRegister(ch: nat, uid: nat)
      requires ch < |registered|
      modifies this`registered
      ensures registered == old(registered)[ch := old(registered)[ch] + {uid}]
    {
      registered := registered[ch := registered[ch] + {uid}];
    }

    method ModelAtReady(ch: nat, uid: nat)
      requires ch < |ready|
      modifies this`ready
      ensures ready == old(ready)[ch := old(ready)[ch] + {uid}]
    {
      ready := ready[ch := ready[ch] + {uid}];
    }

    /** A ModelExit: the run loop ends when nobody is registered. */
    method ModelAtExit(ch: nat, uid: nat, ghost b: Bus, ghost p: nat)
      requires Valid() && ch < |channels| && !exit
      modifies this`registered, this`ready, this`exit
      ensures Valid() && AsBus(b.(left := b.left + {p})) == Exits(old(AsBus(b)), p, uid, ch)
      ensures exit <==> forall d | 0 <= d < |registered| :: registered[d] == {}
    {
      hide Flat, SignalsOf, Distinct;
      registered := registered[ch := registered[ch] - {uid}];
      ready := ready[ch := ready[ch] - {uid}];
      for d := 0 to |registered|
        invariant forall e | 0 <= e < d :: registered[e] == {}
      {
        if |registered[d]| > 0 {
          return;
        }
      }
      exit := true;
    }

    // ---- Messages ----

    method ProcessNotify(w: Wire)
      requires Valid() && w.ch < |channels| && WireOk(w)
      modifies channels[w.ch]
      ensures Valid()
      ensures Sigs() == old(Sigs())[w.ch := FinSetAll(AppendedAll(old(Sigs())[w.ch], w.bins), w.scalars)]
    {
      hide AppendedAll, FinSetAll, Uids, Distinct, SignalsOf;
      ghost var was := Sigs();
      var channel := channels[w.ch];
      channel.AppendBins(w.bins);
      channel.SetFins(w.scalars);
      forall ch | 0 <= ch < |channels| && ch != w.ch ensures channels[ch].Signals() == was[ch] {
        assert channels[ch] != channel;
      }
      assert Sigs() == was[w.ch := FinSetAll(AppendedAll(was[w.ch], w.bins), w.scalars)];
    }

    /** A Notify with what has changed, and every channel resolved. */
    method ResolveAndNotify(time: real, stop: real) returns (n: Notify)
      requires Valid()
      modifies channels
      ensures Valid() && NotifyOk(n) && |n.wires| == |channels|
      ensures StartIn(n) == Start(time, stop, DeltaOf(old(Flat(Sigs())))) && Flat(Sigs()) == Resolve(old(Flat(Sigs())))
    {
      hide Flat, Uids, Distinct, SignalsOf, ResolvedSignals, Outgoing, MapOf, DeltaIn, DeltaOf, BusData.Resolve;
      ghost var was := Sigs();
      var wires: seq<Wire> := [];
      for ch := 0 to |channels|
        invariant Valid() && |wires| == ch
        invariant forall d | 0 <= d < ch ::
                    && wires[d].ch == d && WireOk(wires[d])
                    && VectorOf(wires[d]).scalars == Outgoing(0, 0, was[d]).scalars
                    && VectorOf(wires[d]).bins == Outgoing(0, 0, was[d]).bins
        invariant forall d | 0 <= d < |channels| ::
                    channels[d].Signals() == if d < ch then ResolvedSignals(was[d]) else was[d]
      {
        ghost var others := Sigs();
        var scalars, bins := channels[ch].Encode();
        channels[ch].Resolve();
        forall d | 0 <= d < |channels| && d != ch ensures channels[d].Signals() == others[d] {
          assert channels[d] != channels[ch];
        }
        wires := wires + [Wire(0, ch, scalars, bins)];
      }
      FlatResolve(was, Sigs());
      FlatDelta(was, VectorsOf(wires));
      n := Notify(time, stop, wires);
    }

    /** The end of a cycle: the bus time moves by a step (Kahan summation) and a Start goes out. */
    method FinishCycle(ghost r: Bus) returns (n: Notify)
      requires Valid() && r.rdy == ready && r.sv == Flat(Sigs()) && r.time == busTime
      modifies this`ready, this`busTime, this`correction, channels
      ensures Valid() && NotifyOk(n) && StartIn(n) == StartOf(r, step)
      ensures ready == Resolved(r, step).rdy && Flat(Sigs()) == Resolved(r, step).sv
      ensures busTime == Resolved(r, step).time
    {
      hide Flat, Uids, DeltaIn, DeltaOf, BusData.Resolve, NotifyOk, SignalsOf, Distinct;
      var y := step - correction;
      var t := busTime + y;
      correction := t - busTime - y;
      busTime := t;
      n := ResolveAndNotify(busTime, busTime + step);
      ModelsToStart();
    }

    /** A ModelReady: its vectors are written, and the last one completes the cycle. */
    method HandleReady(ws: seq<Wire>, ghost c: Config, ghost b: Bus, ghost p: nat) returns (n: Option<Notify>)
      requires c.channels == |channels| && forall ch | 0 <= ch < |expected| :: expected[ch] == |c.Members(ch)|
      requires Valid() && forall i | 0 <= i < |ws| :: ws[i].ch < |channels| && WireOk(ws[i])
      modifies this`ready, this`busTime, this`correction, channels
      ensures Valid()
      ensures var r := Readied(old(AsBus(b)), p, VectorsOf(ws));
              && (n.Some? <==> LockStep.NetworkReady(c, r) && LockStep.ModelsReady(c, r))
              && (n.None? ==> AsBus(b.(entries := r.entries)) == r)
              && (n.Some? ==> AsBus(b.(entries := [], rounds := b.rounds + [r.entries])) == Resolved(r, step)
                              && NotifyOk(n.value) && StartIn(n.value) == StartOf(r, step))
    {
      hide Flat, WriteAll, Uids, WireOk, StartIn, StartOf, BusData.Resolve, NotifyOk, SignalsOf, Distinct, Complete,
          ReadyUids, LockStep.NetworkReady, LockStep.ModelsReady;
      ghost var was := AsBus(b);
      ghost var r := Readied(was, p, VectorsOf(ws));
      TakeVectors(ws, was, p);
      CompleteIsReady(c, r);
      n := None;
      var network := NetworkReady();
      var models := ModelsReady();
      if network && models {
        var msg := FinishCycle(r);
        n := Some(msg);
      }
    }

    method TakeVector(w: Wire)
      requires Valid() && w.ch < |channels| && WireOk(w)
      modifies this`ready, channels
      ensures Valid() && Flat(Sigs()) == Write(old(Flat(Sigs())), VectorOf(w))
      ensures ready == old(ready)[w.ch := old(ready)[w.ch] + {w.uid}]
    {
      hide Flat, Write, WireOk, VectorOf, SignalsOf, Distinct;
      FlatWrite(Sigs(), w);
      ProcessNotify(w);
      ModelAtReady(w.ch, w.uid);
    }

    method TakeVectors(ws: seq<Wire>, ghost was: Bus, ghost p: nat)
      requires Valid() && was.rdy == ready && was.sv == Flat(Sigs())
      requires forall i | 0 <= i < |ws| :: ws[i].ch < |channels| && WireOk(ws[i])
      modifies this`ready, channels
      ensures Valid() && ready == Readied(was, p, VectorsOf(ws)).rdy
      ensures Flat(Sigs()) == Readied(was, p, VectorsOf(ws)).sv
    {
      hide Flat, Write, WireOk, VectorOf, SignalsOf, Distinct, ReadyUids;
      ghost var vs := VectorsOf(ws);
      NoUids();
      for i := 0 to |ws|
        invariant Valid() && Flat(Sigs()) == WriteAll(was.sv, vs[..i])
        invariant forall ch | 0 <= ch < |ready| :: ready[ch] == was.rdy[ch] + ReadyUids(vs[..i], ch)
      {
        TakeVector(ws[i]);
        assert vs[..i + 1][..i] == vs[..i];
        forall ch | 0 <= ch < |ready| ensures ready[ch] == was.rdy[ch] + ReadyUids(vs[..i + 1], ch) {
          UidsNext(ws, i, ch);
        }
      }
      assert vs[..|vs|] == vs;
      assert ready == Readied(was, p, vs).rdy;
    }

    method HandleRegister(ch: nat, uid: nat, ghost b: Bus, ghost p: nat)
      requires Valid() && ch < |channels|
      modifies this`registered
      ensures Valid() && AsBus(b.(known := b.known + {p})) == Registers(old(AsBus(b)), p, uid, ch)
    {
      hide Flat, SignalsOf, Distinct;
      ModelAtRegister(ch, uid);
    }

    /** A SignalIndex: looks every name up, creating missing signals, and renews the index. */
    method HandleIndex(ch: nat, names: seq<Name>, ghost b: Bus) returns (uids: seq<nat>)
      requires Valid() && ch < |channels| && Hashed(channels[ch].values)
      requires CollisionFree(NamesOf(channels[ch].values) + set x | x in names)
      modifies channels[ch]
      ensures Valid() && Hashed(channels[ch].values)
      ensures |uids| == |names| && forall i | 0 <= i < |names| :: uids[i] == Fnv(names[i])
      ensures AsBus(b) == old(AsBus(b)).(sv := Indexed(old(AsBus(b)).sv, ch, UidsOf(names)))
    {
      hide Flat, SignalsOf, Distinct, Fnv, Indexed, CollisionFree, WithUids, UidsOf;
      var channel := channels[ch];
      ghost var was, all := Sigs(), NamesOf(channel.values) + set x | x in names;
      uids := [];
      NoNames(was[ch]);
      for i := 0 to |names|
        invariant channel.Valid() && Hashed(channel.values) && |uids| == i
        invariant forall j | 0 <= j < i :: uids[j] == Fnv(names[j])
        invariant NamesOf(channel.values) <= all
        invariant channel.Signals() == WithUids(was[ch], UidsOf(names[..i]))
      {
        FewerCollide(all, NamesOf(channel.values) + {names[i]});
        var uid := channel.Lookup(names[i]);
        uids := uids + [uid];
        UidsOfNext(names, i);
        WithNext(was[ch], UidsOf(names[..i]), uid);
      }
      channel.GenerateIndex();
      forall d | 0 <= d < |channels| && d != ch ensures channels[d].Signals() == was[d] {
        assert channels[d] != channel;
      }
      assert Sigs() == was[ch := channel.Signals()];
      assert names[..|names|] == names;
      FlatIndexed(was, ch, UidsOf(names), channel.Signals());
    }
  }

  function WithUids(m: map<nat, Sv>, uids: set<nat>): map<nat, Sv> {
    m + map u | u in uids && u !in m :: Sv(0.0, 0.0, [])
  }

  function UidsOf(names: seq<Name>): set<nat> {
    set i | 0 <= i < |names| :: Fnv(names[i])
  }

  lemma {:induction false} UidsOfNext(names: seq<Name>, i: nat)
    requires i < |names|
    ensures UidsOf(names[..i + 1]) == UidsOf(names[..i]) + {Fnv(names[i])}
  {
    hide Fnv;
    assert forall j | 0 <= j < i :: names[..i + 1][j] == names[..i][j];
    assert names[..i + 1][i] == names[i];
  }

  lemma {:induction false} WithNext(m: map<nat, Sv>, uids: set<nat>, uid: nat)
    ensures WithUids(m, uids + {uid}) ==
            if uid in WithUids(m, uids) then WithUids(m, uids) else WithUids(m, uids)[uid := Sv(0.0, 0.0, [])]
  {}

  lemma {:induction false} NoNames(m: map<nat, Sv>)
    ensures forall names: seq<Name> :: WithUids(m, UidsOf(names[..0])) == m
  {
    hide Fnv;
    forall names: seq<Name> ensures WithUids(m, UidsOf(names[..0])) == m {
      assert UidsOf(names[..0]) == {};
    }
  }

  lemma {:induction false} FewerCollide(all: set<Name>, names: set<Name>)
    requires CollisionFree(all) && names <= all
    ensures CollisionFree(names)
  {
    hide Fnv;
  }

  lemma {:induction false} NoUids()
    ensures forall ch: nat :: ReadyUids([], ch) == {}
  {}

  lemma {:induction false} UidsNext(ws: seq<Wire>, i: nat, ch: nat)
    requires i < |ws|
    ensures ReadyUids(VectorsOf(ws)[..i + 1], ch) ==
            ReadyUids(VectorsOf(ws)[..i], ch) + if ws[i].ch == ch then {ws[i].uid} else {}
  {
    hide MapOf;
    var vs := VectorsOf(ws);
    assert forall j | 0 <= j < i :: vs[..i + 1][j] == vs[..i][j];
    assert vs[..i + 1][i] == VectorOf(ws[i]);
  }
}
