/** Scalar signals: the bus resolves a cycle to the last value written in it, in the order of the Readies. */
module Scalars {
  import opened Barrier
  import opened BusData
  import opened Conservation
  import opened LockStep
  import opened Replication

  /** What the models of a process write in one step, slot by slot. */
  type Fins = seq<map<nat, real>>

  /** What process p writes in its first, second, ... step. */
  function FinsOf(acts: seq<Action>, p: nat): seq<Fins> {
    if acts == [] then [] else
    var a, before := acts[|acts| - 1], FinsOf(acts[..|acts| - 1], p);
    if a.SendsReady? && a.p == p then before + [a.fins] else before
  }

  // ---- The last value written ----

  function LastInOne(vs: seq<Vector>, k: Key, was: real): real {
    if vs == [] then was else
    var v := vs[|vs| - 1];
    if v.ch == k.ch && k.sig in v.scalars then v.scalars[k.sig] else LastInOne(vs[..|vs| - 1], k, was)
  }

  function LastIn(readies: seq<seq<Vector>>, k: Key, was: real): real {
    if readies == [] then was else LastInOne(readies[|readies| - 1], k, LastIn(readies[..|readies| - 1], k, was))
  }

  /** The last value other than held that the models of a process write to signal k. */
  function LastWrite(slots: seq<Slot>, fins: Fins, k: Key, was: real, held: real): real
    requires |fins| == |slots|
  {
    if slots == [] then was else
    var n := |slots| - 1;
    if slots[n].ch == k.ch && k.sig in slots[n].signals && k.sig in fins[n] && fins[n][k.sig] != held
    then fins[n][k.sig]
    else LastWrite(slots[..n], fins[..n], k, was, held)
  }

  /** All processes have made an r-th step. */
  ghost predicate AllStepped(c: Config, steps: seq<seq<Fins>>, r: nat) {
    |steps| == |c.procs| && forall p | 0 <= p < |steps| :: r < |steps[p]| && |steps[p][r]| == |c.procs[p]|
  }

  /** The last value other than held that several processes write in their r-th steps, in this order; or held. */
  ghost function LastBy(c: Config, order: seq<nat>, steps: seq<seq<Fins>>, r: nat, k: Key, held: real): real
    requires AllStepped(c, steps, r) && forall i | 0 <= i < |order| :: order[i] < |c.procs|
  {
    if order == [] then held else
    var p := order[|order| - 1];
    LastWrite(c.procs[p], steps[p][r], k, LastBy(c, order[..|order| - 1], steps, r, k, held), held)
  }

  lemma {:induction false} WrittenLast(sv: map<Key, Sv>, vs: seq<Vector>, k: Key)
    requires k in sv
    ensures WriteAll(sv, vs)[k].fin == LastInOne(vs, k, sv[k].fin) && WriteAll(sv, vs)[k].val == sv[k].val
  {
    if vs != [] {
      WrittenLast(sv, vs[..|vs| - 1], k);
    }
  }

  // ---- What a Ready carries ----

  /** The vectors carry exactly what the models wrote that is not the bus's value. */
  ghost predicate CarryScalars(slots: seq<Slot>, vs: seq<Vector>, fins: Fins, sv: map<Key, Sv>) {
    && |vs| == |fins| == |slots|
    && (forall i | 0 <= i < |vs| :: vs[i].ch == slots[i].ch)
    && (forall i, x | 0 <= i < |vs| && x in vs[i].scalars ::
          x in slots[i].signals && x in fins[i] && vs[i].scalars[x] == fins[i][x] != ValOf(sv, Key(slots[i].ch, x)))
    && (forall i, x | 0 <= i < |vs| && x in slots[i].signals && x in fins[i] ::
          fins[i][x] != ValOf(sv, Key(slots[i].ch, x)) ==> x in vs[i].scalars)
  }

  lemma {:induction false} CarriedLast(slots: seq<Slot>, vs: seq<Vector>, fins: Fins, sv: map<Key, Sv>, k: Key,
                                       was: real)
    requires CarryScalars(slots, vs, fins, sv)
    ensures LastInOne(vs, k, was) == LastWrite(slots, fins, k, was, ValOf(sv, k))
  {
    if slots != [] {
      var n := |slots| - 1;
      CarriedLast(slots[..n], vs[..n], fins[..n], sv, k, was);
      assert slots[n].ch == k.ch ==> Key(slots[n].ch, k.sig) == k;
    }
  }

  lemma {:induction false} SameVals(slots: seq<Slot>, vs: seq<Vector>, fins: Fins, sv: map<Key, Sv>, r: map<Key, Sv>)
    requires CarryScalars(slots, vs, fins, sv) && forall k :: ValOf(r, k) == ValOf(sv, k)
    ensures CarryScalars(slots, vs, fins, r)
  {}

  /** A model that has the bus's values sends what it writes differently. */
  lemma {:induction false} SentScalars(slots: seq<Slot>, sv: map<Key, Sv>, cells: seq<map<nat, Cell>>, fins: Fins,
                                       ops: Ops)
    requires |cells| == |slots| == |fins| == |ops| && forall i | 0 <= i < |slots| :: cells[i].Keys == slots[i].signals
    requires forall i, x | 0 <= i < |slots| && x in cells[i] ::
               cells[i][x].val == cells[i][x].fin == ValOf(sv, Key(slots[i].ch, x))
    ensures CarryScalars(slots, EncodedAll(slots, SteppedAll(cells, fins, ops)), fins, sv)
  {
    hide Operated, MarshalledOut;
    var stepped := SteppedAll(cells, fins, ops);
    var vs := EncodedAll(slots, stepped);
    forall i, x | 0 <= i < |slots| && x in cells[i]
      ensures stepped[i][x].val == cells[i][x].val
      ensures stepped[i][x].fin == if x in fins[i] then fins[i][x] else cells[i][x].val
      ensures x in vs[i].scalars <==> stepped[i][x].val != stepped[i][x].fin
      ensures x in vs[i].scalars ==> vs[i].scalars[x] == stepped[i][x].fin
    {
      OperatedVal(cells[i][x], if x in ops[i] then ops[i][x] else []);
    }
    assert forall i, x | 0 <= i < |vs| && x in vs[i].scalars :: x in stepped[i] && x in cells[i];
  }

  lemma {:induction false} OperatedVal(x: Cell, ops: seq<BinOp>)
    ensures MarshalledOut(Operated(x, ops)).val == x.val
  {
    if ops != [] {
      OperatedVal(x, ops[..|ops| - 1]);
    }
  }

  // ---- The invariant ----

  /** Each signal's final value is the last one written in this cycle, or its value. */
  ghost predicate Resolving(b: Bus) {
    && (forall k | k in b.sv :: b.sv[k].fin == LastIn(VectorsOf(b.entries), k, b.sv[k].val))
    && (forall j, i, x | 0 <= j < |b.entries| && 0 <= i < |b.entries[j].vectors|
                         && x in b.entries[j].vectors[i].scalars :: Key(b.entries[j].vectors[i].ch, x) in b.sv)
  }

  /** A process that has sent a Ready in this cycle has sent what it wrote. */
  ghost predicate SentNow(slots: seq<Slot>, b: Bus, x: Proc, fins: seq<Fins>) {
    && |x.out| == |fins|
    && (|x.out| == |b.rounds| + 1 ==> CarryScalars(slots, x.out[|b.rounds|], fins[|b.rounds|], b.sv))
  }

  ghost predicate ScalarInv(c: Config, s: State, acts: seq<Action>)
    requires Shape(c, s)
  {
    Resolving(s.bus) && forall p | 0 <= p < |c.procs| :: SentNow(c.procs[p], s.bus, s.procs[p], FinsOf(acts, p))
  }

  // ---- Steps of processes ----

  lemma {:induction false} FinsNext(acts: seq<Action>, a: Action, p: nat)
    ensures FinsOf(acts + [a], p) == if a.SendsReady? && a.p == p then FinsOf(acts, p) + [a.fins] else FinsOf(acts, p)
  {
    assert (acts + [a])[..|acts|] == acts;
  }

  /** A process that runs its models has the values of the bus. */
  lemma {:induction false} RunningValues(slots: seq<Slot>, step: real, b: Bus, p: nat, x: Proc, tb: seq<ToBus>,
                                         tp: seq<ToProc>)
    requires ProcInv(slots, step, b, p, x, tb, tp) && Synced(slots, b.sv, x, tb, tp) && x.phase.Running?
    ensures |x.cells| == |slots| && x.readied == |b.rounds|
    ensures forall i, sig | 0 <= i < |slots| && sig in x.cells[i] ::
              x.cells[i][sig].val == x.cells[i][sig].fin == ValOf(b.sv, Key(slots[i].ch, sig))
  {
    hide Turnout, Membership, InOrder, Timed, Served, Differs, IndexedOk, WritesDiffer;
    forall i, sig | 0 <= i < |slots| && sig in x.cells[i]
      ensures x.cells[i][sig].val == x.cells[i][sig].fin == ValOf(b.sv, Key(slots[i].ch, sig))
    {
      assert CellSynced(b.sv, Key(slots[i].ch, sig), i, x.cells[i][sig], false, tb, tp);
    }
  }

  lemma {:induction false} ReadySent(c: Config, s: State, a: Action, acts: seq<Action>)
    requires Inv(c, s) && ReplicaInv(c, s) && BinInv(c, s) && Enabled(c, s, a) && a.SendsReady? && ScalarInv(c, s, acts)
    ensures var x := SentReady(c.procs[a.p], s.procs[a.p], a.fins, a.ops).proc;
            SentNow(c.procs[a.p], s.bus, x, FinsOf(acts + [a], a.p))
  {
    var slots, x, tb, tp := c.procs[a.p], s.procs[a.p], s.toBus[a.p], s.toProc[a.p];
    assert ProcInv(slots, c.step, s.bus, a.p, x, tb, tp) && Synced(slots, s.bus.sv, x, tb, tp);
    assert ProcBins(slots, s.bus, x, tb, tp) && SentNow(slots, s.bus, x, FinsOf(acts, a.p));
    hide Inv, ReplicaInv, BinInv, ScalarInv, ProcInv, Synced, Shape, CarryScalars, SteppedAll, EncodedAll, FinsOf,
        Carried, Buffered;
    RunningValues(slots, c.step, s.bus, a.p, x, tb, tp);
    SentScalars(slots, s.bus.sv, x.cells, a.fins, a.ops);
    FinsNext(acts, a, a.p);
  }

  lemma {:induction false} LocalScalars(c: Config, s: State, a: Action, acts: seq<Action>)
    requires Inv(c, s) && ReplicaInv(c, s) && BinInv(c, s) && Enabled(c, s, a) && !a.BusTakes? && ScalarInv(c, s, acts)
    requires Shape(c, Step(c, s, a))
    ensures ScalarInv(c, Step(c, s, a), acts + [a])
  {
    var r := Step(c, s, a);
    if a.SendsReady? {
      ReadySent(c, s, a, acts);
    }
    forall p | 0 <= p < |c.procs| ensures SentNow(c.procs[p], r.bus, r.procs[p], FinsOf(acts + [a], p)) {
      assert SentNow(c.procs[p], s.bus, s.procs[p], FinsOf(acts, p));
      OutAfter(c, s, a, p);
      FinsNext(acts, a, p);
      hide Inv, ReplicaInv, BinInv, ScalarInv, CarryScalars, FinsOf, Shape, Taken, TimedOut, SteppedAll, EncodedAll;
    }
    hide *;
  }

  // ---- Steps of the bus ----

  lemma {:induction false} TakenResolving(b: Bus, p: nat, vs: seq<Vector>, slots: seq<Slot>, fins: Fins)
    requires Resolving(b) && CarryScalars(slots, vs, fins, b.sv) && forall i | 0 <= i < |slots| :: OnBus(slots[i], b.sv)
    ensures Resolving(Readied(b, p, vs))
  {
    hide LastInOne, WriteAll;
    var r := Readied(b, p, vs);
    assert VectorsOf(r.entries) == VectorsOf(b.entries) + [vs];
    assert (VectorsOf(b.entries) + [vs])[..|b.entries|] == VectorsOf(b.entries);
    forall k | k in r.sv ensures r.sv[k].fin == LastIn(VectorsOf(r.entries), k, r.sv[k].val) {
      WrittenLast(b.sv, vs, k);
    }
    forall i, x | 0 <= i < |vs| && x in vs[i].scalars ensures Key(vs[i].ch, x) in r.sv {
      assert OnBus(slots[i], b.sv);
    }
  }

  lemma {:induction false} IndexedResolving(b: Bus, ch: nat, signals: set<nat>)
    requires Resolving(b)
    ensures Resolving(b.(sv := Indexed(b.sv, ch, signals)))
    ensures forall k :: ValOf(Indexed(b.sv, ch, signals), k) == ValOf(b.sv, k)
  {
    var r := Indexed(b.sv, ch, signals);
    forall k | k in r && k !in b.sv ensures LastIn(VectorsOf(b.entries), k, 0.0) == 0.0 {
      NotWritten(b.entries, k, 0.0);
    }
    hide LastIn;
  }

  lemma {:induction false} NotWritten(es: seq<Entry>, k: Key, was: real)
    requires forall j, i | 0 <= j < |es| && 0 <= i < |es[j].vectors| ::
               !(es[j].vectors[i].ch == k.ch && k.sig in es[j].vectors[i].scalars)
    ensures LastIn(VectorsOf(es), k, was) == was
  {
    if es != [] {
      var n := |es| - 1;
      assert VectorsOf(es)[..n] == VectorsOf(es[..n]);
      NotWritten(es[..n], k, was);
      NotWrittenIn(es[n].vectors, k, was);
    }
  }

  lemma {:induction false} NotWrittenIn(vs: seq<Vector>, k: Key, was: real)
    requires forall i | 0 <= i < |vs| :: !(vs[i].ch == k.ch && k.sig in vs[i].scalars)
    ensures LastInOne(vs, k, was) == was
  {
    if vs != [] {
      NotWrittenIn(vs[..|vs| - 1], k, was);
    }
  }

  lemma {:induction false} RequestScalars(c: Config, s: State, p: nat, acts: seq<Action>)
    requires Shape(c, s) && ScalarInv(c, s, acts) && p < |s.procs| && s.toBus[p] != [] && !s.toBus[p][0].Ready?
    requires Shape(c, BusStep(c, s, p))
    ensures ScalarInv(c, BusStep(c, s, p), acts)
  {
    var r, m := BusStep(c, s, p), s.toBus[p][0];
    assert FromSlot(c.procs[p], m);
    hide FromSlot, PhaseOk, CarryScalars, FinsOf, LastIn, Indexed;
    if m.Index? {
      IndexedResolving(s.bus, m.ch, m.signals);
    }
    forall q | 0 <= q < |c.procs| ensures SentNow(c.procs[q], r.bus, r.procs[q], FinsOf(acts, q)) {
      var x := s.procs[q];
      if |x.out| == |s.bus.rounds| + 1 {
        SameVals(c.procs[q], x.out[|s.bus.rounds|], FinsOf(acts, q)[|s.bus.rounds|], s.bus.sv, r.bus.sv);
      }
    }
  }

  /** The bus once the Ready of p is taken, before the check that ends the cycle. */
  lemma {:induction false} ReadiedScalars(c: Config, s: State, p: nat, acts: seq<Action>)
    requires Inv(c, s) && ReplicaInv(c, s) && BinInv(c, s) && ScalarInv(c, s, acts)
    requires p < |s.procs| && s.toBus[p] != [] && s.toBus[p][0].Ready?
    ensures Resolving(Readied(s.bus, p, s.toBus[p][0].vectors))
  {
    var slots, x, tb, tp := c.procs[p], s.procs[p], s.toBus[p], s.toProc[p];
    assert ProcInv(slots, c.step, s.bus, p, x, tb, tp) && Synced(slots, s.bus.sv, x, tb, tp);
    assert ProcBins(slots, s.bus, x, tb, tp) && SentNow(slots, s.bus, x, FinsOf(acts, p));
    hide Inv, ReplicaInv, BinInv, ScalarInv, Core, Served, Synced, Shape, CarryScalars, FinsOf, Carried, Buffered,
        Resolving;
    ReadyCount(slots, c.step, s.bus, p, x, tb, tp);
    ReadyOnBus(slots, c.step, s.bus, p, x, tb, tp);
    var r := |s.bus.rounds|;
    assert tb[0].vectors == x.out[r];
    ResolvingNow(c, s, acts);
    TakenResolving(s.bus, p, tb[0].vectors, slots, FinsOf(acts, p)[r]);
  }

  lemma {:induction false} ResolvingNow(c: Config, s: State, acts: seq<Action>)
    requires Shape(c, s) && ScalarInv(c, s, acts)
    ensures Resolving(s.bus)
  {}

  lemma {:induction false} WrittenVals(sv: map<Key, Sv>, vs: seq<Vector>)
    ensures forall k :: ValOf(WriteAll(sv, vs), k) == ValOf(sv, k)
  {
    forall k | k in sv ensures WriteAll(sv, vs)[k].val == sv[k].val {
      WrittenLast(sv, vs, k);
    }
  }

  /** Nobody is ahead of the cycle that is closed. */
  lemma {:induction false} NotAhead(c: Config, s: State, q: nat)
    requires Inv(c, s) && BinInv(c, s) && q < |c.procs|
    ensures |s.procs[q].out| <= |s.bus.rounds| + 1
  {
    var slots, x, tb, tp := c.procs[q], s.procs[q], s.toBus[q], s.toProc[q];
    assert ProcInv(slots, c.step, s.bus, q, x, tb, tp) && ProcBins(slots, s.bus, x, tb, tp);
    hide Inv, BinInv, Turnout, Membership, InOrder, Timed, Served, Carried, Buffered, FromSlot;
  }

  lemma {:induction false} ReadyScalars(c: Config, s: State, p: nat, acts: seq<Action>)
    requires Inv(c, s) && ReplicaInv(c, s) && BinInv(c, s) && ScalarInv(c, s, acts)
    requires p < |s.procs| && s.toBus[p] != [] && s.toBus[p][0].Ready? && Shape(c, s) && Shape(c, BusStep(c, s, p))
    ensures ScalarInv(c, BusStep(c, s, p), acts)
  {
    ReadiedScalars(c, s, p, acts);
    AfterReady(c, s, p);
    hide Inv, ReplicaInv, BinInv, Shape, SentNow, BusStep, WriteAll, FinsOf;
    var r, b := BusStep(c, s, p), Readied(s.bus, p, s.toBus[p][0].vectors);
    forall q | 0 <= q < |c.procs| ensures SentNow(c.procs[q], r.bus, r.procs[q], FinsOf(acts, q)) {
      NotAhead(c, s, q);
      assert SentNow(c.procs[q], s.bus, s.procs[q], FinsOf(acts, q));
      StillSent(c.procs[q], s.bus, p, s.toBus[p][0].vectors, s.procs[q], FinsOf(acts, q), c.step);
    }
    ResolvedResolving(b, c.step);
  }

  lemma {:induction false} ResolvedResolving(b: Bus, step: real)
    ensures Resolving(Resolved(b, step))
  {}

  lemma {:induction false} AfterReady(c: Config, s: State, p: nat)
    requires Shape(c, s) && p < |s.procs| && s.toBus[p] != [] && s.toBus[p][0].Ready?
    ensures var r, b := BusStep(c, s, p), Readied(s.bus, p, s.toBus[p][0].vectors);
            r.procs == s.procs && |s.procs| == |c.procs| && (r.bus == b || r.bus == Resolved(b, c.step))
  {
    hide PhaseOk, FromSlot, NetworkReady, ModelsReady, WriteAll;
  }

  /** Taking a Ready leaves the values; when it closes the cycle, nobody has answered the next one. */
  lemma {:induction false} StillSent(slots: seq<Slot>, b: Bus, p: nat, vs: seq<Vector>, x: Proc, fins: seq<Fins>,
                                     step: real)
    requires SentNow(slots, b, x, fins) && |x.out| <= |b.rounds| + 1
    ensures SentNow(slots, Readied(b, p, vs), x, fins) && SentNow(slots, Resolved(Readied(b, p, vs), step), x, fins)
  {
    WrittenVals(b.sv, vs);
    hide CarryScalars, WriteAll;
    if |x.out| == |b.rounds| + 1 {
      SameVals(slots, x.out[|b.rounds|], fins[|b.rounds|], b.sv, WriteAll(b.sv, vs));
    }
  }

  // ---- Runs ----

  lemma {:induction false} StepScalars(c: Config, s: State, a: Action, acts: seq<Action>)
    requires Inv(c, s) && ReplicaInv(c, s) && BinInv(c, s) && Enabled(c, s, a) && ScalarInv(c, s, acts)
    ensures Shape(c, Step(c, s, a)) && ScalarInv(c, Step(c, s, a), acts + [a])
  {
    StepKeeps(c, s, a);
    InvShape(c, Step(c, s, a));
    InvShape(c, s);
    hide Inv, ReplicaInv, BinInv, BusStep, ScalarInv;
    if a.BusTakes? {
      if s.toBus[a.p][0].Ready? {
        ReadyScalars(c, s, a.p, acts);
      } else {
        RequestScalars(c, s, a.p, acts);
      }
      SameFins(c, Step(c, s, a), acts, a);
    } else {
      LocalScalars(c, s, a, acts);
    }
  }

  lemma {:induction false} SameFins(c: Config, s: State, acts: seq<Action>, a: Action)
    requires Shape(c, s) && ScalarInv(c, s, acts) && !a.SendsReady?
    ensures ScalarInv(c, s, acts + [a])
  {
    hide Shape, Resolving, CarryScalars;
    forall p | 0 <= p < |c.procs| ensures FinsOf(acts + [a], p) == FinsOf(acts, p) {
      FinsNext(acts, a, p);
    }
    hide FinsOf;
  }

  lemma {:induction false} InitScalars(c: Config)
    requires c.Valid() && Shape(c, Init(c))
    ensures ScalarInv(c, Init(c), [])
  {
    hide PhaseOk, FromSlot;
  }

  lemma {:induction false} TraceScalars(c: Config, acts: seq<Action>, states: seq<State>, n: nat)
    requires Trace(c, acts, states) && n <= |acts|
    ensures Shape(c, states[n]) && ScalarInv(c, states[n], acts[..n])
  {
    hide Inv, ReplicaInv, BinInv, Step, Enabled, ScalarInv;
    TraceBins(c, acts, states, n);
    InvShape(c, states[n]);
    if n == 0 {
      InitScalars(c);
      assert acts[..0] == [];
    } else {
      TraceScalars(c, acts, states, n - 1);
      TraceBins(c, acts, states, n - 1);
      TraceSynced(c, acts, states, n - 1);
      StepScalars(c, states[n - 1], acts[n - 1], acts[..n - 1]);
      assert acts[..n] == acts[..n - 1] + [acts[n - 1]];
    }
  }

  /** What all processes have written, step by step. */
  function AllFins(c: Config, acts: seq<Action>): (r: seq<seq<Fins>>)
    ensures |r| == |c.procs|
  {
    seq(|c.procs|, p requires 0 <= p < |c.procs| => FinsOf(acts, p))
  }

  /** The entries of a cycle carry what their processes wrote in it. */
  ghost predicate CarriedBy(c: Config, es: seq<Entry>, steps: seq<seq<Fins>>, r: nat, sv: map<Key, Sv>)
    requires AllStepped(c, steps, r)
  {
    forall i | 0 <= i < |es| ::
      es[i].proc < |c.procs| && CarryScalars(c.procs[es[i].proc], es[i].vectors, steps[es[i].proc][r], sv)
  }

  lemma {:induction false} LastOfEntries(c: Config, es: seq<Entry>, steps: seq<seq<Fins>>, r: nat, sv: map<Key, Sv>,
                                         k: Key)
    requires AllStepped(c, steps, r) && CarriedBy(c, es, steps, r, sv)
    ensures forall i | 0 <= i < |OrderOf(es)| :: OrderOf(es)[i] < |c.procs|
    ensures LastIn(VectorsOf(es), k, ValOf(sv, k)) == LastBy(c, OrderOf(es), steps, r, k, ValOf(sv, k))
  {
    if es != [] {
      var n := |es| - 1;
      LastOfEntries(c, es[..n], steps, r, sv, k);
      assert VectorsOf(es)[..n] == VectorsOf(es[..n]) && OrderOf(es)[..n] == OrderOf(es[..n]);
      var before := LastIn(VectorsOf(es[..n]), k, ValOf(sv, k));
      CarriedLast(c.procs[es[n].proc], es[n].vectors, steps[es[n].proc][r], sv, k, before);
      hide CarryScalars, LastInOne, LastWrite;
    }
  }

  /** The entries of the cycle about to be closed. */
  lemma {:induction false} EntriesCarry(c: Config, s: State, es: seq<Entry>, acts: seq<Action>)
    requires Inv(c, s) && BinInv(c, s) && Shape(c, s) && ScalarInv(c, s, acts)
    requires Full(c, es) && FromOuts(es, |s.bus.rounds|, s.procs)
    ensures AllStepped(c, AllFins(c, acts), |s.bus.rounds|)
    ensures CarriedBy(c, es, AllFins(c, acts), |s.bus.rounds|, s.bus.sv)
  {
    var r, steps := |s.bus.rounds|, AllFins(c, acts);
    forall p | 0 <= p < |c.procs|
      ensures r < |steps[p]| && |s.procs[p].out| == r + 1
      ensures CarryScalars(c.procs[p], s.procs[p].out[r], steps[p][r], s.bus.sv)
    {
      NotAhead(c, s, p);
      hide Inv, BinInv, Shape, CarryScalars, FinsOf, Resolving;
      assert InEntries(es, p) && SentNow(c.procs[p], s.bus, s.procs[p], FinsOf(acts, p));
    }
    hide Inv, BinInv, Shape, FinsOf, ScalarInv;
  }

  /** The state after the message of p, which closes the cycle. */
  lemma {:induction false} Closing(c: Config, s: State, p: nat)
    requires Inv(c, s) && ReplicaInv(c, s) && BinInv(c, s) && p < |s.procs| && s.toBus[p] != []
    requires |BusStep(c, s, p).bus.rounds| == |s.bus.rounds| + 1 && Shape(c, s)
    ensures s.toBus[p][0].Ready?
    ensures var b := Readied(s.bus, p, s.toBus[p][0].vectors);
            BusStep(c, s, p).bus == Resolved(b, c.step) && FromOuts(b.entries, |s.bus.rounds|, s.procs)
  {
    hide Inv, ReplicaInv, BinInv, Shape, BusStep, WriteAll, FromOuts;
    OnlyReadyCloses(c, s, p);
    ReadiedBins(c, s, p);
    AfterReady(c, s, p);
  }

  lemma {:induction false} OnlyReadyCloses(c: Config, s: State, p: nat)
    requires Shape(c, s) && p < |s.procs| && s.toBus[p] != []
    requires |BusStep(c, s, p).bus.rounds| == |s.bus.rounds| + 1
    ensures s.toBus[p][0].Ready?
  {
    hide PhaseOk, NetworkReady, ModelsReady;
    assert FromSlot(c.procs[p], s.toBus[p][0]);
  }

  lemma {:induction false} StepResolves(c: Config, s: State, p: nat, acts: seq<Action>, k: Key)
    requires Inv(c, s) && ReplicaInv(c, s) && BinInv(c, s) && Shape(c, s) && ScalarInv(c, s, acts)
    requires Enabled(c, s, BusTakes(p)) && k in s.bus.sv
    requires |BusStep(c, s, p).bus.rounds| == |s.bus.rounds| + 1 && Full(c, BusStep(c, s, p).bus.rounds[|s.bus.rounds|])
    ensures ResolvedAs(c, s.bus, BusStep(c, s, p).bus, AllFins(c, acts), k)
  {
    Closing(c, s, p);
    ReadiedScalars(c, s, p, acts);
    var b, r := Readied(s.bus, p, s.toBus[p][0].vectors), BusStep(c, s, p).bus;
    hide Inv, ReplicaInv, BinInv, Shape, ScalarInv, BusStep, Full, FromOuts, AllStepped, CarriedBy, LastBy, WriteAll,
        AllFins, LastIn;
    EntriesCarry(c, s, b.entries, acts);
    LastOfEntries(c, b.entries, AllFins(c, acts), |s.bus.rounds|, s.bus.sv, k);
    WrittenLast(s.bus.sv, s.toBus[p][0].vectors, k);
  }

  /** r is the bus after the cycle that follows b: each signal has the last changed value, in Ready order. */
  ghost predicate ResolvedAs(c: Config, b: Bus, r: Bus, steps: seq<seq<Fins>>, k: Key) {
    var n := |b.rounds|;
    && |r.rounds| == n + 1 && Full(c, r.rounds[n]) && AllStepped(c, steps, n) && k in b.sv && k in r.sv
    && r.sv[k].val == r.sv[k].fin == LastBy(c, OrderOf(r.rounds[n]), steps, n, k, b.sv[k].val)
  }

  /** Over any run, an action that completes a cycle resolves every signal to the last changed value written in it. */
  lemma {:induction false} WritesResolved(c: Config, acts: seq<Action>, states: seq<State>, n: nat, k: Key)
    requires Trace(c, acts, states) && n < |acts| && n + 1 < |states| && k in states[n].bus.sv
    requires |states[n + 1].bus.rounds| == |states[n].bus.rounds| + 1
    ensures ResolvedAs(c, states[n].bus, states[n + 1].bus, AllFins(c, acts[..n]), k)
  {
    var s, a := states[n], acts[n];
    assert states[n + 1] == Step(c, s, a) && Enabled(c, s, a);
    hide Trace, Inv, ReplicaInv, BinInv, ScalarInv, Shape, Full, ResolvedAs, BusStep;
    TraceBins(c, acts, states, n);
    TraceSynced(c, acts, states, n);
    TraceScalars(c, acts, states, n);
    RoundsFull(c, acts, states, n + 1, |s.bus.rounds|);
    OnlyBusCloses(c, s, a);
    StepResolves(c, s, a.p, acts[..n], k);
  }

  /** m is the Start of the cycle after which the bus is r: it carries exactly the values that have changed. */
  ghost predicate CarriesChanges(b: Bus, r: Bus, m: ToProc) {
    m.Start? && forall k | k in b.sv ::
      && k in r.sv && (k in m.delta.scalars <==> r.sv[k].val != b.sv[k].val)
      && (k in m.delta.scalars ==> m.delta.scalars[k] == r.sv[k].val)
  }

  lemma {:induction false} ClosingStart(c: Config, s: State, p: nat)
    requires Shape(c, s) && p < |s.procs| && s.toBus[p] != []
    requires |BusStep(c, s, p).bus.rounds| == |s.bus.rounds| + 1
    ensures s.toBus[p][0].Ready?
    ensures var r, b := BusStep(c, s, p), Readied(s.bus, p, s.toBus[p][0].vectors);
            r.bus == Resolved(b, c.step) && r.toProc == Broadcast(b.known, s.toProc, StartOf(b, c.step))
  {
    OnlyReadyCloses(c, s, p);
    hide PhaseOk, FromSlot, NetworkReady, ModelsReady, WriteAll, Broadcast, StartOf;
  }

  lemma {:induction false} StartCarries(b: Bus, p: nat, vs: seq<Vector>, step: real)
    ensures var d := Readied(b, p, vs); CarriesChanges(b, Resolved(d, step), StartOf(d, step))
  {
    hide WriteAll;
    forall k | k in b.sv ensures WriteAll(b.sv, vs)[k].val == b.sv[k].val {
      WrittenLast(b.sv, vs, k);
    }
  }

  lemma {:induction false} ClosingSends(c: Config, s: State, p: nat, q: nat)
    requires Shape(c, s) && p < |s.procs| && s.toBus[p] != []
    requires |BusStep(c, s, p).bus.rounds| == |s.bus.rounds| + 1 && q < |c.procs|
    ensures var r := BusStep(c, s, p);
            && |r.toProc| == |s.toProc| == |c.procs|
            && (q in r.bus.known ==> |r.toProc[q]| == |s.toProc[q]| + 1
                                     && CarriesChanges(s.bus, r.bus, r.toProc[q][|s.toProc[q]|]))
  {
    ClosingStart(c, s, p);
    StartCarries(s.bus, p, s.toBus[p][0].vectors, c.step);
    assert |s.toProc| == |c.procs|;
    hide Shape, BusStep, CarriesChanges, WriteAll, StartOf;
  }

  /** Over any run, the Start that completing a cycle sends to every connected process carries exactly the changes. */
  lemma {:induction false} StartIsChanges(c: Config, acts: seq<Action>, states: seq<State>, n: nat, q: nat)
    requires Trace(c, acts, states) && n < |acts| && n + 1 < |states| && q < |c.procs|
    requires |states[n + 1].bus.rounds| == |states[n].bus.rounds| + 1
    ensures |states[n].toProc| == |states[n + 1].toProc| == |c.procs|
    ensures var was, now := states[n].toProc[q], states[n + 1].toProc[q];
            q in states[n + 1].bus.known ==>
              |now| == |was| + 1 && CarriesChanges(states[n].bus, states[n + 1].bus, now[|was|])
  {
    var s, a := states[n], acts[n];
    assert states[n + 1] == Step(c, s, a) && Enabled(c, s, a);
    hide Trace, Inv, ReplicaInv, BinInv, Shape, BusStep, CarriesChanges;
    TraceBins(c, acts, states, n);
    TraceSynced(c, acts, states, n);
    InvShape(c, s);
    OnlyBusCloses(c, s, a);
    ClosingSends(c, s, a.p, q);
  }

  lemma {:induction false} OnlyBusCloses(c: Config, s: State, a: Action)
    requires Shape(c, s) && Enabled(c, s, a) && Step(c, s, a).bus.rounds != s.bus.rounds
    ensures a.BusTakes?
  {
    hide BusStep, PhaseOk, FromSlot;
  }

  /** Any other action leaves every signal's value; a signal new on the bus has 0. */
  lemma {:induction false} ValuesStay(c: Config, acts: seq<Action>, states: seq<State>, n: nat, k: Key)
    requires Trace(c, acts, states) && n < |acts| && n + 1 < |states|
    requires states[n + 1].bus.rounds == states[n].bus.rounds
    ensures ValOf(states[n + 1].bus.sv, k) == ValOf(states[n].bus.sv, k)
    ensures k in states[n].bus.sv ==> k in states[n + 1].bus.sv
  {
    var s, a := states[n], acts[n];
    assert states[n + 1] == Step(c, s, a) && Enabled(c, s, a) && Shape(c, s);
    hide Trace, Shape;
    BusValues(c, s, a, k);
  }

  lemma {:induction false} BusValues(c: Config, s: State, a: Action, k: Key)
    requires Shape(c, s) && Enabled(c, s, a) && Step(c, s, a).bus.rounds == s.bus.rounds
    ensures var r := Step(c, s, a).bus; ValOf(r.sv, k) == ValOf(s.bus.sv, k) && (k in s.bus.sv ==> k in r.sv)
  {
    hide PhaseOk, Taken, TimedOut, SteppedAll, EncodedAll, NetworkReady, ModelsReady, WriteAll;
    if a.BusTakes? {
      var m := s.toBus[a.p][0];
      assert FromSlot(c.procs[a.p], m);
      if m.Ready? {
        WrittenVals(s.bus.sv, m.vectors);
      }
    }
    hide FromSlot;
  }
}
