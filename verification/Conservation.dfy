/** Binary signals: every byte sent in a cycle is delivered once, in the order of the Readies,
    and none survives the cycle. */
module Conservation {
  import opened Barrier
  import opened Binary
  import opened BusData
  import opened LockStep
  import opened Replication

  function VectorsOf(es: seq<Entry>): (r: seq<seq<Vector>>)
    ensures |r| == |es|
  {
    seq(|es|, i requires 0 <= i < |es| => es[i].vectors)
  }

  function BusBin(sv: map<Key, Sv>, k: Key): seq<byte> {
    if k in sv then sv[k].bin else []
  }

  function DeltaBin(d: Delta, k: Key): seq<byte> {
    if k in d.bins then d.bins[k] else []
  }

  /** The bus holds what the Readies of this cycle brought, in order. */
  ghost predicate Collected(b: Bus) {
    forall k :: BusBin(b.sv, k) == Gather(VectorsOf(b.entries), k)
  }

  /** A Start in flight carries what the last cycle collected. */
  ghost predicate Carried(b: Bus, tp: seq<ToProc>) {
    forall j | 0 <= j < |tp| && tp[j].Start? ::
      b.rounds != [] && forall k :: DeltaBin(tp[j].delta, k) == Gather(VectorsOf(b.rounds[|b.rounds| - 1]), k)
  }

  /** What a model's buffers hold between steps: what its last Start brought, until it answers. */
  ghost predicate Buffered(slots: seq<Slot>, b: Bus, x: Proc)
    requires |x.cells| == |slots|
  {
    forall i, sig | 0 <= i < |slots| && sig in x.cells[i] ::
      var cell := x.cells[i][sig];
      && cell.bin == []
      && (x.phase.Running? && 0 < x.started <= |b.rounds| ==>
            !cell.reset && cell.buf == Gather(VectorsOf(b.rounds[x.started - 1]), Key(slots[i].ch, sig)))
      && (!x.phase.Running? || x.started == 0 ==> cell.buf == [] && (!x.phase.Waiting? ==> !cell.reset))
  }

  predicate OwnBins(slots: seq<Slot>, vs: seq<Vector>) {
    |vs| == |slots| && forall i | 0 <= i < |vs| :: vs[i].ch == slots[i].ch && vs[i].bins.Keys <= slots[i].signals
  }

  /** The Readies sent are recorded; the one in flight is the last. */
  ghost predicate Recorded(slots: seq<Slot>, x: Proc, tb: seq<ToBus>) {
    && |x.out| == x.readied && (forall r | 0 <= r < |x.out| :: OwnBins(slots, x.out[r]))
    && (forall j | 0 <= j < |tb| && tb[j].Ready? :: x.out != [] && tb[j].vectors == x.out[|x.out| - 1])
  }

  ghost predicate ProcBins(slots: seq<Slot>, b: Bus, x: Proc, tb: seq<ToBus>, tp: seq<ToProc>) {
    && |x.cells| == |slots| && (forall i | 0 <= i < |slots| :: x.cells[i].Keys == slots[i].signals)
    && Carried(b, tp) && Recorded(slots, x, tb) && (!x.phase.Gone? ==> Buffered(slots, b, x))
  }

  /** The entries of cycle r are the r-th Readies of their processes. */
  ghost predicate FromOuts(es: seq<Entry>, r: nat, procs: seq<Proc>) {
    forall i | 0 <= i < |es| ::
      es[i].proc < |procs| && r < |procs[es[i].proc].out| && es[i].vectors == procs[es[i].proc].out[r]
  }

  ghost predicate BinInv(c: Config, s: State)
    requires Shape(c, s)
  {
    && Collected(s.bus)
    && (forall p | 0 <= p < |s.procs| :: ProcBins(c.procs[p], s.bus, s.procs[p], s.toBus[p], s.toProc[p]))
    && FromOuts(s.bus.entries, |s.bus.rounds|, s.procs)
    && (forall r | 0 <= r < |s.bus.rounds| :: FromOuts(s.bus.rounds[r], r, s.procs))
  }

  // ---- Processes ----

  /** What a model sends is what it appended after its last reset. */
  lemma {:induction false} SentContribution(slots: seq<Slot>, b: Bus, x: Proc, fins: seq<map<nat, real>>,
                                            ops: seq<map<nat, seq<BinOp>>>, i: nat, sig: nat)
    requires |x.cells| == |slots| == |fins| == |ops| && Buffered(slots, b, x) && x.phase.Running?
        && x.started <= |b.rounds|
    requires i < |slots| && sig in x.cells[i]
    ensures var vs := EncodedAll(slots, SteppedAll(x.cells, fins, ops));
            BinOf(vs[i], Key(slots[i].ch, sig)) == Contribution(if sig in ops[i] then ops[i][sig] else [])
    ensures var cell := SteppedAll(x.cells, fins, ops)[i][sig]; cell.buf == []
  {
    hide Operated, MarshalledOut, Contribution, Gather;
    OutIsContribution(x.cells[i][sig], if sig in ops[i] then ops[i][sig] else []);
  }

  lemma {:induction false} ReadyBins(slots: seq<Slot>, b: Bus, x: Proc, tb: seq<ToBus>, tp: seq<ToProc>,
                                     fins: seq<map<nat, real>>, ops: seq<map<nat, seq<BinOp>>>)
    requires ProcBins(slots, b, x, tb, tp) && x.phase.Running? && |slots| == |fins| == |ops| && x.started <= |b.rounds|
    requires Readies(tb) == 0
    ensures var t := SentReady(slots, x, fins, ops); ProcBins(slots, b, t.proc, tb + t.sent, tp)
    ensures SentReady(slots, x, fins, ops).proc.out == x.out + [SentReady(slots, x, fins, ops).sent[0].vectors]
  {
    hide Operated, MarshalledOut, Gather, Carried;
    ReadiesNone(tb);
    var t := SentReady(slots, x, fins, ops);
    forall i, sig | 0 <= i < |slots| && sig in x.cells[i]
      ensures t.proc.cells[i][sig].bin == [] && t.proc.cells[i][sig].buf == []
    {
      SentContribution(slots, b, x, fins, ops, i, sig);
    }
  }

  lemma {:induction false} StartBins(slots: seq<Slot>, b: Bus, x: Proc, tb: seq<ToBus>, tp: seq<ToProc>, y: Proc)
    requires ProcBins(slots, b, x, tb, tp) && x.phase.Waiting? && tp != [] && tp[0].Start? && Starts(tp) == 1
    requires y == x.(phase := Running, started := |b.rounds|, time := y.time, stop := y.stop,
                     cells := NotifiedAll(slots, x.cells, tp[0].delta))
    ensures ProcBins(slots, b, y, tb, tp[1..])
  {
    hide Gather, Recorded;
    StartsFirst(tp);
    StartsNone(tp[1..]);
    forall i, sig | 0 <= i < |slots| && sig in y.cells[i]
      ensures var cell := y.cells[i][sig];
              cell.bin == [] && !cell.reset && cell.buf ==
                  Gather(VectorsOf(b.rounds[|b.rounds| - 1]), Key(slots[i].ch, sig))
    {
      NotifiedBin(x.cells[i][sig], tp[0].delta, Key(slots[i].ch, sig));
    }
    assert Recorded(slots, y, tb) by { SameRecord(slots, x, y, tb); }
  }

  lemma {:induction false} SameRecord(slots: seq<Slot>, x: Proc, y: Proc, tb: seq<ToBus>)
    requires Recorded(slots, x, tb) && y.out == x.out && y.readied == x.readied
    ensures Recorded(slots, y, tb)
  {}

  lemma {:induction false} NotifiedBin(cell: Cell, d: Delta, k: Key)
    requires cell.bin == [] && cell.buf == []
    ensures var r := MarshalledIn(Notified(cell, d, k)); r.buf == DeltaBin(d, k) && r.bin == [] && !r.reset
  {}

  /** Anything else a process does leaves its buffers. */
  lemma {:induction false} QuietBins(slots: seq<Slot>, b: Bus, x: Proc, tb: seq<ToBus>, tp: seq<ToProc>,
                                     y: Proc, sent: seq<ToBus>, rest: seq<ToProc>)
    requires ProcBins(slots, b, x, tb, tp) && !x.phase.Gone?
    requires y.cells == x.cells && y.out == x.out && y.readied == x.readied && y.started == x.started
    requires y.phase.Running? ==> x.phase == y.phase || x.started == 0
    requires x.phase.Running? ==> y.phase.Running? || y.phase.Gone?
    requires x.phase.Waiting? ==> y.phase.Waiting? || y.phase.Gone?
    requires forall j | 0 <= j < |sent| :: !sent[j].Ready?
    requires rest == tp || (tp != [] && rest == tp[1..])
    ensures ProcBins(slots, b, y, tb + sent, rest)
  {
    hide Gather;
    assert forall j | |tb| <= j < |tb + sent| :: (tb + sent)[j] == sent[j - |tb|];
  }

  // ---- The bus ----

  lemma {:induction false} ReadyCount(slots: seq<Slot>, step: real, b: Bus, p: nat, x: Proc, tb: seq<ToBus>,
                                      tp: seq<ToProc>)
    requires ProcInv(slots, step, b, p, x, tb, tp) && tb != [] && tb[0].Ready?
    ensures x.readied == |b.rounds| + 1
  {
    ReadiesFirst(tb);
  }

  /** A Ready's bytes are appended, since all its signals are on the bus. */
  lemma {:induction false} CollectedMore(b: Bus, p: nat, vs: seq<Vector>, slots: seq<Slot>)
    requires Collected(b) && OwnBins(slots, vs) && forall i | 0 <= i < |slots| :: OnBus(slots[i], b.sv)
    ensures Collected(Readied(b, p, vs))
  {
    hide Gather, GatherOne, Write;
    var r := Readied(b, p, vs);
    assert VectorsOf(r.entries) == VectorsOf(b.entries) + [vs];
    forall k ensures BusBin(r.sv, k) == Gather(VectorsOf(r.entries), k) {
      GatherLast(VectorsOf(b.entries), vs, k);
      if k in b.sv {
        WrittenBins(b.sv, vs, k);
      } else {
        NoBins(b.sv, vs, slots, k);
        assert GatherOne(vs, k) == [];
      }
    }
  }

  lemma {:induction false} GatherLast(readies: seq<seq<Vector>>, vs: seq<Vector>, k: Key)
    ensures Gather(readies + [vs], k) == Gather(readies, k) + GatherOne(vs, k)
  {
    hide GatherOne;
    assert (readies + [vs])[..|readies|] == readies;
  }

  lemma {:induction false} NoBins(sv: map<Key, Sv>, vs: seq<Vector>, slots: seq<Slot>, k: Key)
    requires OwnBins(slots, vs) && (forall i | 0 <= i < |slots| :: OnBus(slots[i], sv)) && k !in sv
    ensures GatherOne(vs, k) == []
  {
    forall i | 0 <= i < |vs| ensures BinOf(vs[i], k) == [] {
      assert OnBus(slots[i], sv);
    }
    EmptyGather(vs, k);
  }

  lemma {:induction false} EmptyGather(vs: seq<Vector>, k: Key)
    requires forall i | 0 <= i < |vs| :: BinOf(vs[i], k) == []
    ensures GatherOne(vs, k) == []
  {
    if vs != [] {
      EmptyGather(vs[..|vs| - 1], k);
    }
  }

  lemma {:induction false} CollectedResolved(b: Bus, step: real)
    ensures Collected(Resolved(b, step))
  {}

  lemma {:induction false} CollectedIndexed(b: Bus, ch: nat, signals: set<nat>)
    requires Collected(b)
    ensures Collected(b.(sv := Indexed(b.sv, ch, signals)))
  {
    hide Gather;
    var r := Indexed(b.sv, ch, signals);
    forall k ensures BusBin(r, k) == BusBin(b.sv, k) {}
  }

  lemma {:induction false} CollectedSame(b: Bus, r: Bus)
    requires Collected(b) && r.sv == b.sv && r.entries == b.entries
    ensures Collected(r)
  {
    hide Gather;
  }

  /** The head of a queue goes and an ACK may come: the process's buffers stay. */
  lemma {:induction false} BusQuiet(slots: seq<Slot>, b: Bus, r: Bus, x: Proc, tb: seq<ToBus>, tp: seq<ToProc>,
                                    rest: seq<ToBus>, m: ToProc)
    requires ProcBins(slots, b, x, tb, tp) && r.rounds == b.rounds && (rest == tb || (tb != []
        && rest == tb[1..])) && !m.Start?
    ensures ProcBins(slots, r, x, rest, tp) && ProcBins(slots, r, x, rest, tp + [m])
  {
    hide Gather;
  }

  /** The end of a cycle: the Start carries what was collected. */
  lemma {:induction false} CycleBins(slots: seq<Slot>, b: Bus, x: Proc, tb: seq<ToBus>, tp: seq<ToProc>, step: real)
    requires ProcBins(slots, b, x, tb, tp) && Collected(b) && Starts(tp) == 0 && (x.phase.Waiting? || x.phase.Gone?)
    ensures ProcBins(slots, Resolved(b, step), x, tb, tp + [StartOf(b, step)])
  {
    hide Gather;
    StartsNone(tp);
    forall k ensures DeltaBin(DeltaOf(b.sv), k) == BusBin(b.sv, k) {}
  }

  lemma {:induction false} OutsGrow(es: seq<Entry>, r: nat, procs: seq<Proc>, next: seq<Proc>)
    requires FromOuts(es, r, procs) && |next| == |procs|
    requires forall p | 0 <= p < |procs| :: procs[p].out <= next[p].out
    ensures FromOuts(es, r, next)
  {}

  // ---- Every step ----

  lemma {:induction false} ActedBins(c: Config, s: State, p: nat, t: Turn, tp: seq<ToProc>)
    requires Shape(c, s) && BinInv(c, s) && p < |s.procs|
    requires ProcBins(c.procs[p], s.bus, t.proc, s.toBus[p] + t.sent, tp) && s.procs[p].out <= t.proc.out
    requires Shape(c, Acted(s.(toProc := s.toProc[p := tp]), p, t))
    ensures BinInv(c, Acted(s.(toProc := s.toProc[p := tp]), p, t))
  {
    hide ProcBins, PhaseOk, FromSlot, FromOuts, Collected;
    var r := Acted(s.(toProc := s.toProc[p := tp]), p, t);
    OutsGrow(s.bus.entries, |s.bus.rounds|, s.procs, r.procs);
    forall k | 0 <= k < |s.bus.rounds| ensures FromOuts(r.bus.rounds[k], k, r.procs) {
      OutsGrow(s.bus.rounds[k], k, s.procs, r.procs);
    }
  }

  lemma {:induction false} TakenBins(slots: seq<Slot>, step: real, b: Bus, p: nat, x: Proc, tb: seq<ToBus>,
                                     tp: seq<ToProc>)
    requires ProcInv(slots, step, b, p, x, tb, tp) && ProcBins(slots, b, x, tb, tp)
    requires tp != [] && Receiving(x) && |x.cells| == |slots|
    ensures var t := Taken(slots, x, tp[0]); ProcBins(slots, b, t.proc, tb + t.sent, tp[1..]) && t.proc.out == x.out
  {
    hide Core, Served, ProcBins, NotifiedAll;
    CorePhase(slots, step, b, p, x, tb, tp);
    var m, t := tp[0], Taken(slots, x, tp[0]);
    if x.phase.Waiting? && m.Start? {
      StartInFlight(slots, step, b, p, x, tb, tp, 0);
      assert tb + [] == tb;
      StartBins(slots, b, x, tb, tp, t.proc);
    } else {
      QuietBins(slots, b, x, tb, tp, t.proc, t.sent, tp[1..]);
    }
  }

  lemma {:induction false} LocalStepBins(c: Config, s: State, a: Action)
    requires Inv(c, s) && BinInv(c, s) && Enabled(c, s, a) && !a.BusTakes? && Shape(c, Step(c, s, a))
    ensures BinInv(c, Step(c, s, a))
  {
    hide Core, Served, BusInv, FromSlot, Taken, SentReady, ExitAll, Acted, ProcBins, Collected, FromOuts;
    var p := a.p;
    var slots, x, tb, tp := c.procs[p], s.procs[p], s.toBus[p], s.toProc[p];
    assert s.toProc[p := tp] == s.toProc;
    assert ProcInv(slots, c.step, s.bus, p, x, tb, tp) && ProcBins(slots, s.bus, x, tb, tp);
    match a
    case ProcTakes(_) =>
      TakenBins(slots, c.step, s.bus, p, x, tb, tp);
      ActedBins(c, s, p, Taken(slots, x, tp[0]), tp[1..]);
    case TimesOut(_) =>
      QuietBins(slots, s.bus, x, tb, tp, TimedOut(slots, x).proc, TimedOut(slots, x).sent, tp);
      ActedBins(c, s, p, TimedOut(slots, x), tp);
    case SendsReady(_, fins, ops) =>
      StepsWithin(slots, c.step, s.bus, p, x, tb, tp);
      ReadyBins(slots, s.bus, x, tb, tp, fins, ops);
      ActedBins(c, s, p, SentReady(slots, x, fins, ops), tp);
    case SendsExit(_) =>
      ExitsOnly(slots);
      QuietBins(slots, s.bus, x, tb, tp, x.(phase := Gone), ExitAll(slots), tp);
      ActedBins(c, s, p, Turn(x.(phase := Gone), ExitAll(slots)), tp);
    case Crashes(_) =>
      QuietBins(slots, s.bus, x, tb, tp, x.(phase := Gone), [], tp);
      ActedBins(c, s, p, Turn(x.(phase := Gone), []), tp);
  }

  lemma {:induction false} StepsWithin(slots: seq<Slot>, step: real, b: Bus, p: nat, x: Proc, tb: seq<ToBus>,
                                       tp: seq<ToProc>)
    requires Core(slots, step, b, p, x, tb, tp) && x.phase.Running?
    ensures x.started <= |b.rounds| && Readies(tb) == 0
  {}

  /** The ACK for a request; any, where there is none. */
  function AckFor(m: ToBus): ToProc {
    if m.Register? then RegisterAck(m.uid, m.token)
    else if m.Index? then IndexAck(m.uid, m.token)
    else RegisterAck(0, 0)
  }

  lemma {:induction false} RequestTakenBins(c: Config, s: State, p: nat)
    requires Shape(c, s) && BinInv(c, s) && p < |s.procs| && s.toBus[p] != [] && !s.toBus[p][0].Ready?
    requires Shape(c, BusStep(c, s, p))
    ensures BinInv(c, BusStep(c, s, p))
  {
    hide ProcBins, PhaseOk, FromSlot, FromOuts, Collected, Indexed;
    var r := BusStep(c, s, p);
    match s.toBus[p][0] {
      case Register(_, _, _) => CollectedSame(s.bus, r.bus);
      case Index(_, ch, _, signals) => CollectedIndexed(s.bus, ch, signals);
      case Exit(_, _) => CollectedSame(s.bus, r.bus);
    }
    forall q | 0 <= q < |s.procs|
      ensures ProcBins(c.procs[q], r.bus, r.procs[q], r.toBus[q], r.toProc[q])
    {
      BusQuiet(c.procs[q], s.bus, r.bus, s.procs[q], s.toBus[q], s.toProc[q], r.toBus[q], AckFor(s.toBus[p][0]));
    }
  }

  /** All processes and the bus once the Ready of p is taken, before the check that ends the cycle. */
  lemma {:induction false} ReadiedBins(c: Config, s: State, p: nat)
    requires Inv(c, s) && ReplicaInv(c, s) && BinInv(c, s) && p < |s.procs| && s.toBus[p] != [] && s.toBus[p][0].Ready?
    ensures var b := Readied(s.bus, p, s.toBus[p][0].vectors);
            && Collected(b) && FromOuts(b.entries, |s.bus.rounds|, s.procs)
            && forall q | 0 <= q < |s.procs| ::
                 ProcBins(c.procs[q], b, s.procs[q], if q == p then s.toBus[q][1..] else s.toBus[q], s.toProc[q])
  {
    hide Core, Served, PhaseOk, Synced, BusInv, FromSlot, Collected, WriteAll;
    var vs := s.toBus[p][0].vectors;
    var b := Readied(s.bus, p, vs);
    assert ProcInv(c.procs[p], c.step, s.bus, p, s.procs[p], s.toBus[p], s.toProc[p]);
    assert Synced(c.procs[p], s.bus.sv, s.procs[p], s.toBus[p], s.toProc[p]);
    ReadyCount(c.procs[p], c.step, s.bus, p, s.procs[p], s.toBus[p], s.toProc[p]);
    ReadyOnBus(c.procs[p], c.step, s.bus, p, s.procs[p], s.toBus[p], s.toProc[p]);
    assert ProcBins(c.procs[p], s.bus, s.procs[p], s.toBus[p], s.toProc[p]);
    CollectedMore(s.bus, p, vs, c.procs[p]);
    hide ProcBins;
    forall q | 0 <= q < |s.procs|
      ensures ProcBins(c.procs[q], b, s.procs[q], if q == p then s.toBus[q][1..] else s.toBus[q], s.toProc[q])
    {
      BusQuiet(c.procs[q], s.bus, b, s.procs[q], s.toBus[q], s.toProc[q],
               if q == p then s.toBus[q][1..] else s.toBus[q], RegisterAck(0, 0));
    }
  }

  lemma {:induction false} ReadyOnBus(slots: seq<Slot>, step: real, b: Bus, p: nat, x: Proc, tb: seq<ToBus>,
                                      tp: seq<ToProc>)
    requires Core(slots, step, b, p, x, tb, tp) && Synced(slots, b.sv, x, tb, tp) && tb != [] && tb[0].Ready?
    ensures forall i | 0 <= i < |slots| :: OnBus(slots[i], b.sv)
  {
    ReadyHead(slots, step, b, p, x, tb, tp);
    ReadyPhase(slots, step, b, p, x, tb, tp);
    hide OnBus, Core, WritesDiffer, AllSynced;
  }

  lemma {:induction false} ReadyTakenBins(c: Config, s: State, p: nat)
    requires Inv(c, s) && ReplicaInv(c, s) && BinInv(c, s) && p < |s.procs| && s.toBus[p] != [] && s.toBus[p][0].Ready?
    requires Shape(c, BusStep(c, s, p))
    ensures BinInv(c, BusStep(c, s, p))
  {
    hide ProcBins, ProcInv, PhaseOk, Synced, BusInv, BusCore, NetworkReady, ModelsReady, FromSlot, Collected,
        WriteAll, FromOuts,
         Resolve, DeltaOf;
    var r, vs := BusStep(c, s, p), s.toBus[p][0].vectors;
    assert FromSlot(c.procs[p], s.toBus[p][0]);
    var b := Readied(s.bus, p, vs);
    ReadiedBins(c, s, p);
    ReadiedAll(c, s, p);
    CoreSizes(c, b);
    if NetworkReady(c, b) && ModelsReady(c, b) {
      AllAnswered(c, b);
      CollectedResolved(b, c.step);
      NoOuts(|r.bus.rounds|, r.procs);
      forall q | 0 <= q < |s.procs|
        ensures ProcBins(c.procs[q], r.bus, r.procs[q], r.toBus[q], r.toProc[q])
      {
        CycleEnds(c.procs[q], c.step, b, q, s.procs[q], r.toBus[q], s.toProc[q]);
        CycleBins(c.procs[q], b, s.procs[q], r.toBus[q], s.toProc[q], c.step);
      }
    }
  }

  lemma {:induction false} NoOuts(r: nat, procs: seq<Proc>)
    ensures FromOuts([], r, procs)
  {}

  lemma {:induction false} StepBins(c: Config, s: State, a: Action)
    requires Inv(c, s) && ReplicaInv(c, s) && BinInv(c, s) && Enabled(c, s, a)
    ensures Inv(c, Step(c, s, a)) && BinInv(c, Step(c, s, a))
  {
    StepKeeps(c, s, a);
    InvShape(c, Step(c, s, a));
    hide Inv, ReplicaInv, BinInv, BusStep;
    if a.BusTakes? {
      if s.toBus[a.p][0].Ready? {
        ReadyTakenBins(c, s, a.p);
      } else {
        RequestTakenBins(c, s, a.p);
      }
    } else {
      LocalStepBins(c, s, a);
    }
  }

  lemma {:induction false} InitBins(c: Config)
    requires c.Valid() && Shape(c, Init(c))
    ensures BinInv(c, Init(c))
  {
    hide PhaseOk, FromSlot;
    var s := Init(c);
    forall p | 0 <= p < |c.procs|
      ensures ProcBins(c.procs[p], s.bus, s.procs[p], s.toBus[p], s.toProc[p])
    {
      assert NewProc(c.procs[p]).sent[0].Register?;
    }
  }

  lemma {:induction false} TraceBins(c: Config, acts: seq<Action>, states: seq<State>, n: nat)
    requires Trace(c, acts, states) && n <= |acts|
    ensures Inv(c, states[n]) && BinInv(c, states[n])
  {
    hide Inv, BinInv, Step, Enabled;
    if n == 0 {
      InitKeeps(c);
      InvShape(c, Init(c));
      InitBins(c);
    } else {
      TraceBins(c, acts, states, n - 1);
      TraceSynced(c, acts, states, n - 1);
      StepBins(c, states[n - 1], acts[n - 1]);
    }
  }

  /** The model's buffer has what the Readies of the cycle of its last Start brought, the adapter nothing. */
  ghost predicate HoldsReadies(c: Config, s: State, p: nat, i: nat, sig: nat)
    requires p < |c.procs| && p < |s.procs| && i < |c.procs[p]| && i < |s.procs[p].cells| && sig in s.procs[p].cells[i]
    ensures HoldsReadies(c, s, p, i, sig) ==> 0 < s.procs[p].started <= |s.bus.rounds|
  {
    var cell, k := s.procs[p].cells[i][sig], s.procs[p].started - 1;
    && 0 <= k < |s.bus.rounds| && FromOuts(s.bus.rounds[k], k, s.procs)
    && cell.buf == Gather(VectorsOf(s.bus.rounds[k]), Key(c.procs[p][i].ch, sig)) && cell.bin == [] && !cell.reset
  }

  /**
   * After its k-th Start a model's buffer holds exactly what the k-th Readies of all processes brought for the signal,
   * each once, in the order the bus took them; the adapter holds nothing.
   */
  lemma {:induction false} BytesDelivered(c: Config, acts: seq<Action>, states: seq<State>, n: nat, p: nat, i: nat,
                                          sig: nat)
    requires Trace(c, acts, states) && n <= |acts| && n < |states| && p < |c.procs| == |states[n].procs|
    requires i < |c.procs[p]| == |states[n].procs[p].cells| && sig in states[n].procs[p].cells[i]
    requires states[n].procs[p].phase.Running? && states[n].procs[p].started > 0
    ensures HoldsReadies(c, states[n], p, i, sig)
    ensures Full(c, states[n].bus.rounds[states[n].procs[p].started - 1])
  {
    hide *;
    var s := states[n];
    var k := s.procs[p].started - 1;
    TraceBins(c, acts, states, n);
    StateBins(c, s, p, i, sig);
    RoundsFull(c, acts, states, n, k);
  }

  lemma {:induction false} StateBins(c: Config, s: State, p: nat, i: nat, sig: nat)
    requires Inv(c, s) && BinInv(c, s) && p < |c.procs| && i < |c.procs[p]|
    requires s.procs[p].phase.Running? && s.procs[p].started > 0 && sig in s.procs[p].cells[i]
    ensures HoldsReadies(c, s, p, i, sig)
  {
    hide BusInv, Served, Turnout, Membership, InOrder, Timed, FromSlot, Collected, FromOuts, Carried, Recorded, Gather;
    var slots, x, tb, tp := c.procs[p], s.procs[p], s.toBus[p], s.toProc[p];
    assert ProcInv(slots, c.step, s.bus, p, x, tb, tp) && ProcBins(slots, s.bus, x, tb, tp);
    StepsWithin(slots, c.step, s.bus, p, x, tb, tp);
  }

  /** Between cycles nothing is left: what the bus and the waiting models hold came with this cycle's Readies. */
  lemma {:induction false} NothingLeftOver(c: Config, acts: seq<Action>, states: seq<State>, n: nat, k: Key)
    requires Trace(c, acts, states) && n <= |acts| && states[n].bus.entries == []
    ensures BusBin(states[n].bus.sv, k) == []
  {
    TraceBins(c, acts, states, n);
    hide Trace, Inv, ProcBins, FromOuts;
    assert VectorsOf([]) == [];
  }

  // ---- What the models did ----

  /** The operations of one step, slot by slot. */
  type Ops = seq<map<nat, seq<BinOp>>>

  /** The operations of process p in its first, second, ... step. */
  function OpsOf(acts: seq<Action>, p: nat): seq<Ops> {
    if acts == [] then [] else
    var a, before := acts[|acts| - 1], OpsOf(acts[..|acts| - 1], p);
    if a.SendsReady? && a.p == p then before + [a.ops] else before
  }

  /** What the models of a process append to signal k in a step, each after its last reset, one after another. */
  function Appended(slots: seq<Slot>, ops: Ops, k: Key): seq<byte>
    requires |ops| == |slots|
  {
    if slots == [] then [] else
    var n := |slots| - 1;
    Appended(slots[..n], ops[..n], k) + (if slots[n].ch == k.ch && k.sig in slots[n].signals then
        Contribution(if k.sig in ops[n] then ops[n][k.sig] else []) else [])
  }

  /** All processes have made an r-th step. */
  ghost predicate Stepped(c: Config, steps: seq<seq<Ops>>, r: nat) {
    |steps| == |c.procs| && forall p | 0 <= p < |steps| :: r < |steps[p]| && |steps[p][r]| == |c.procs[p]|
  }

  /** What several processes append in their r-th steps, in this order. */
  ghost function AppendedBy(c: Config, order: seq<nat>, steps: seq<seq<Ops>>, r: nat, k: Key): seq<byte>
    requires Stepped(c, steps, r) && forall i | 0 <= i < |order| :: order[i] < |c.procs|
  {
    if order == [] then [] else
    var p := order[|order| - 1];
    AppendedBy(c, order[..|order| - 1], steps, r, k) + Appended(c.procs[p], steps[p][r], k)
  }

  /** The vectors carry what was appended. */
  ghost predicate Carry(slots: seq<Slot>, vs: seq<Vector>, ops: Ops) {
    && |vs| == |ops| == |slots|
    && forall k :: GatherOne(vs, k) == Appended(slots, ops, k)
  }

  lemma {:induction false} SlotBins(slots: seq<Slot>, vs: seq<Vector>, ops: Ops, k: Key)
    requires |vs| == |ops| == |slots| && OwnBins(slots, vs)
    requires forall i | 0 <= i < |slots| && k.sig in slots[i].signals ::
               BinOf(vs[i], Key(slots[i].ch, k.sig)) == Contribution(if k.sig in ops[i] then ops[i][k.sig] else [])
    ensures GatherOne(vs, k) == Appended(slots, ops, k)
  {
    if slots != [] {
      var n := |slots| - 1;
      SlotBins(slots[..n], vs[..n], ops[..n], k);
      hide Contribution;
    }
  }

  /** A Ready carries what the models appended. */
  lemma {:induction false} ReadyCarries(slots: seq<Slot>, b: Bus, x: Proc, tb: seq<ToBus>, tp: seq<ToProc>,
                                        fins: seq<map<nat, real>>, ops: Ops)
    requires ProcBins(slots, b, x, tb, tp) && x.phase.Running? && |slots| == |fins| == |ops| && x.started <= |b.rounds|
    ensures Carry(slots, EncodedAll(slots, SteppedAll(x.cells, fins, ops)), ops)
  {
    hide Contribution, Operated, MarshalledOut, Gather, GatherOne, Appended, Carried;
    var vs := EncodedAll(slots, SteppedAll(x.cells, fins, ops));
    forall k ensures GatherOne(vs, k) == Appended(slots, ops, k) {
      forall i | 0 <= i < |slots| && k.sig in slots[i].signals
        ensures BinOf(vs[i], Key(slots[i].ch, k.sig)) == Contribution(if k.sig in ops[i] then ops[i][k.sig] else [])
      {
        SentContribution(slots, b, x, fins, ops, i, k.sig);
      }
      SlotBins(slots, vs, ops, k);
    }
  }

  /** Only a Ready of p adds to what p has sent. */
  lemma {:induction false} OutAfter(c: Config, s: State, a: Action, p: nat)
    requires Inv(c, s) && BinInv(c, s) && Enabled(c, s, a) && p < |s.procs|
    ensures var r := Step(c, s, a);
            && |r.procs| == |s.procs|
            && if a.SendsReady? && a.p == p then
              r.procs[p].out == s.procs[p].out + [EncodedAll(c.procs[p], SteppedAll(s.procs[p].cells, a.fins, a.ops))]
            else r.procs[p].out == s.procs[p].out
  {
    hide ProcBins, Collected, FromOuts, BusInv, Core, Served, NotifiedAll, EncodedAll, SteppedAll, Broadcast, ExitAll;
    if a.ProcTakes? {
      assert ProcInv(c.procs[a.p], c.step, s.bus, a.p, s.procs[a.p], s.toBus[a.p], s.toProc[a.p]);
    }
  }

  /** Over any run, the r-th Ready of a process carries what its models appended in their r-th step. */
  lemma {:induction false} OutsCarry(c: Config, acts: seq<Action>, states: seq<State>, n: nat, p: nat)
    requires Trace(c, acts, states) && n <= |acts| && n < |states| && p < |c.procs| == |states[n].procs|
    ensures var out, steps := states[n].procs[p].out, OpsOf(acts[..n], p);
            |out| == |steps| && forall r | 0 <= r < |out| :: Carry(c.procs[p], out[r], steps[r])
  {
    hide Inv, BinInv, Step, Enabled, Carry;
    if n > 0 {
      TraceBins(c, acts, states, n - 1);
      OutAfter(c, states[n - 1], acts[n - 1], p);
      OutsCarry(c, acts, states, n - 1, p);
      assert acts[..n][..n - 1] == acts[..n - 1];
      var a := acts[n - 1];
      if a.SendsReady? && a.p == p {
        SendingCarries(c, states[n - 1], a);
      }
    }
  }

  lemma {:induction false} SendingCarries(c: Config, s: State, a: Action)
    requires Inv(c, s) && BinInv(c, s) && Enabled(c, s, a) && a.SendsReady?
    ensures Carry(c.procs[a.p], EncodedAll(c.procs[a.p], SteppedAll(s.procs[a.p].cells, a.fins, a.ops)), a.ops)
  {
    hide Core, Served, BusInv, ProcBins, Carry, Collected, FromOuts;
    var slots, x, tb, tp := c.procs[a.p], s.procs[a.p], s.toBus[a.p], s.toProc[a.p];
    assert ProcInv(slots, c.step, s.bus, a.p, x, tb, tp) && ProcBins(slots, s.bus, x, tb, tp);
    StepsWithin(slots, c.step, s.bus, a.p, x, tb, tp);
    ReadyCarries(slots, s.bus, x, tb, tp, a.fins, a.ops);
  }

  /** The processes of a cycle, in the order in which their Readies were taken. */
  function OrderOf(es: seq<Entry>): (r: seq<nat>)
    ensures |r| == |es| && forall i | 0 <= i < |r| :: r[i] == es[i].proc
  {
    seq(|es|, i requires 0 <= i < |es| => es[i].proc)
  }

  /** The steps of all processes. */
  function AllSteps(c: Config, acts: seq<Action>): (r: seq<seq<Ops>>)
    ensures |r| == |c.procs|
  {
    seq(|c.procs|, p requires 0 <= p < |c.procs| => OpsOf(acts, p))
  }

  lemma {:induction false} GatherOrder(c: Config, es: seq<Entry>, steps: seq<seq<Ops>>, r: nat, k: Key)
    requires Stepped(c, steps, r) && forall i | 0 <= i < |es| :: es[i].proc < |c.procs|
    requires forall i | 0 <= i < |es| :: Carry(c.procs[es[i].proc], es[i].vectors, steps[es[i].proc][r])
    ensures Gather(VectorsOf(es), k) == AppendedBy(c, OrderOf(es), steps, r, k)
  {
    if es != [] {
      var n := |es| - 1;
      GatherOrder(c, es[..n], steps, r, k);
      assert VectorsOf(es)[..n] == VectorsOf(es[..n]) && OrderOf(es)[..n] == OrderOf(es[..n]);
      hide GatherOne, Appended;
    }
  }

  /** The entries of a full cycle carry what the processes appended in it. */
  lemma {:induction false} RoundCarries(c: Config, acts: seq<Action>, states: seq<State>, n: nat, es: seq<Entry>,
                                        r: nat)
    requires Trace(c, acts, states) && n <= |acts| && |states[n].procs| == |c.procs|
    requires Full(c, es) && FromOuts(es, r, states[n].procs)
    ensures var steps := AllSteps(c, acts[..n]);
            && Stepped(c, steps, r)
            && forall i | 0 <= i < |es| ::
                 es[i].proc < |c.procs| && Carry(c.procs[es[i].proc], es[i].vectors, steps[es[i].proc][r])
  {
    var procs, steps := states[n].procs, AllSteps(c, acts[..n]);
    hide Trace, OpsOf, Gather;
    forall q | 0 <= q < |c.procs| ensures r < |steps[q]| && |steps[q][r]| == |c.procs[q]| {
      OutsCarry(c, acts, states, n, q);
      assert InEntries(es, q);
    }
    forall i | 0 <= i < |es| ensures Carry(c.procs[es[i].proc], es[i].vectors, steps[es[i].proc][r]) {
      OutsCarry(c, acts, states, n, es[i].proc);
    }
  }

  /**
   * After its k-th Start a model's buffer holds exactly what the models of all processes appended to the signal in
   * their k-th steps, each after its last reset, in the order in which the bus took their Readies.
   */
  lemma {:induction false} AppendedIsDelivered(c: Config, acts: seq<Action>, states: seq<State>, n: nat, p: nat,
                                               i: nat, sig: nat)
    requires Trace(c, acts, states) && n <= |acts| && n < |states| && p < |c.procs| == |states[n].procs|
    requires i < |c.procs[p]| == |states[n].procs[p].cells| && sig in states[n].procs[p].cells[i]
    requires states[n].procs[p].phase.Running? && states[n].procs[p].started > 0
    ensures HoldsAppended(c, states[n], AllSteps(c, acts[..n]), p, i, sig)
  {
    hide Trace, Carry, AllSteps, Gather, AppendedBy, Full, FromOuts, Stepped;
    var s, steps, k := states[n], AllSteps(c, acts[..n]), Key(c.procs[p][i].ch, sig);
    var r := s.procs[p].started - 1;
    BytesDelivered(c, acts, states, n, p, i, sig);
    RoundCarries(c, acts, states, n, s.bus.rounds[r], r);
    GatherOrder(c, s.bus.rounds[r], steps, r, k);
  }

  /** The buffer has what every process, once, appended in the step before the last Start. */
  ghost predicate HoldsAppended(c: Config, s: State, steps: seq<seq<Ops>>, p: nat, i: nat, sig: nat)
    requires p < |c.procs| && p < |s.procs| && i < |c.procs[p]| && i < |s.procs[p].cells| && sig in s.procs[p].cells[i]
  {
    var r := s.procs[p].started - 1;
    && 0 <= r < |s.bus.rounds| && Full(c, s.bus.rounds[r]) && Stepped(c, steps, r)
    && s.procs[p].cells[i][sig].buf == AppendedBy(c, OrderOf(s.bus.rounds[r]), steps, r, Key(c.procs[p][i].ch, sig))
  }
}
