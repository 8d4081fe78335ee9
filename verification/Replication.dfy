/** Starts carry only changed values, and yet every model's replica always has the bus's values. */
module Replication {
  import opened Barrier
  import opened BusData
  import opened LockStep

  ghost predicate CellsOk(slots: seq<Slot>, cells: seq<map<nat, Cell>>) {
    |cells| == |slots| && forall i | 0 <= i < |slots| :: cells[i].Keys == slots[i].signals
  }

  /** The slots whose Index was sent. */
  function IndexesSent(slots: seq<Slot>, x: Proc): (n: nat)
    requires PhaseOk(slots, x)
    ensures n <= |slots|
  {
    match x.phase
    case Connecting(_, _) => 0
    case Indexing(j) => j + 1
    case Gone => if x.readied > 0 then |slots| else 0
    case _ => |slots|
  }

  predicate IndexAsked(slot: Slot, tb: seq<ToBus>) {
    exists j :: 0 <= j < |tb| && tb[j].Index? && tb[j].ch == slot.ch && tb[j].signals == slot.signals
  }

  predicate OnBus(slot: Slot, sv: map<Key, Sv>) {
    forall x | x in slot.signals :: Key(slot.ch, x) in sv
  }

  /** The signals of a slot are on the bus, or will be when its Index is taken. */
  ghost predicate IndexedOk(slots: seq<Slot>, sv: map<Key, Sv>, x: Proc, tb: seq<ToBus>)
    requires PhaseOk(slots, x)
  {
    forall i | 0 <= i < IndexesSent(slots, x) :: OnBus(slots[i], sv) || IndexAsked(slots[i], tb)
  }

  predicate Pending(tb: seq<ToBus>, i: nat, sig: nat) {
    exists j :: 0 <= j < |tb| && tb[j].Ready? && i < |tb[j].vectors| && sig in tb[j].vectors[i].scalars
  }

  predicate Changed(sv: map<Key, Sv>, k: Key) {
    k in sv && sv[k].val != sv[k].fin
  }

  /** The value once what is in flight is applied. */
  function Applied(val: real, d: Delta, k: Key): real {
    if k in d.scalars then d.scalars[k] else val
  }

  /** A replica's value, with the Start in flight applied, is the bus's; what the model wrote is under way. */
  ghost predicate CellSynced(sv: map<Key, Sv>, k: Key, i: nat, cell: Cell, waiting: bool, tb: seq<ToBus>,
                             tp: seq<ToProc>) {
    && (Starts(tp) == 0 ==> cell.val == ValOf(sv, k))
    && (forall j | 0 <= j < |tp| && tp[j].Start? ::
          Applied(cell.val, tp[j].delta, k) == ValOf(sv, k) && (cell.fin != cell.val ==> k in tp[j].delta.scalars))
    && (!waiting ==> cell.fin == cell.val)
    && (waiting && Starts(tp) == 0 && cell.fin != cell.val ==> Pending(tb, i, k.sig) || Changed(sv, k))
  }

  ghost predicate AllSynced(slots: seq<Slot>, sv: map<Key, Sv>, x: Proc, tb: seq<ToBus>, tp: seq<ToProc>)
    requires |x.cells| == |slots|
  {
    forall i, sig | 0 <= i < |slots| && sig in x.cells[i] ::
      CellSynced(sv, Key(slots[i].ch, sig), i, x.cells[i][sig], x.phase.Waiting?, tb, tp)
  }

  /** Values in a Ready in flight differ from the bus's. */
  ghost predicate WritesDiffer(sv: map<Key, Sv>, tb: seq<ToBus>) {
    forall j | 0 <= j < |tb| && tb[j].Ready? :: Differs(sv, tb[j].vectors)
  }

  ghost predicate Synced(slots: seq<Slot>, sv: map<Key, Sv>, x: Proc, tb: seq<ToBus>, tp: seq<ToProc>) {
    && PhaseOk(slots, x) && CellsOk(slots, x.cells) && IndexedOk(slots, sv, x, tb) && WritesDiffer(sv, tb)
    && (!x.phase.Gone? ==> AllSynced(slots, sv, x, tb, tp))
  }

  ghost predicate ReplicaInv(c: Config, s: State)
    requires Shape(c, s)
  {
    forall p | 0 <= p < |s.procs| :: Synced(c.procs[p], s.bus.sv, s.procs[p], s.toBus[p], s.toProc[p])
  }

  // ---- What processes do ----

  lemma {:induction false} AskedLater(slot: Slot, tb: seq<ToBus>, r: seq<ToBus>)
    requires IndexAsked(slot, tb)
    ensures IndexAsked(slot, tb + r)
  {
    var j :| 0 <= j < |tb| && tb[j].Index? && tb[j].ch == slot.ch && tb[j].signals == slot.signals;
    assert (tb + r)[j] == tb[j];
  }

  /** A process sends a request that is no Ready; its cells stay. */
  lemma {:induction false} RequestSynced(slots: seq<Slot>, sv: map<Key, Sv>, x: Proc, tb: seq<ToBus>,
                                         tp: seq<ToProc>, y: Proc, m: ToBus)
    requires Synced(slots, sv, x, tb, tp) && !x.phase.Gone? && !x.phase.Waiting? && !m.Ready?
    requires PhaseOk(slots, y) && y.cells == x.cells && (y.phase.Connecting? || y.phase.Indexing?)
    requires IndexesSent(slots, y) <= IndexesSent(slots, x) + 1
    requires IndexesSent(slots, y) == IndexesSent(slots, x) + 1 ==>
               var slot := slots[IndexesSent(slots, x)]; m.Index? && m.ch == slot.ch && m.signals == slot.signals
    ensures Synced(slots, sv, y, tb + [m], tp)
  {
    hide Differs;
    var q := tb + [m];
    forall i | 0 <= i < IndexesSent(slots, y) && !OnBus(slots[i], sv) ensures IndexAsked(slots[i], q) {
      if i < IndexesSent(slots, x) {
        AskedLater(slots[i], tb, [m]);
      } else {
        assert q[|tb|] == m;
      }
    }
    forall i, sig | 0 <= i < |slots| && sig in x.cells[i]
      ensures CellSynced(sv, Key(slots[i].ch, sig), i, x.cells[i][sig], y.phase.Waiting?, q, tp)
    {
      assert CellSynced(sv, Key(slots[i].ch, sig), i, x.cells[i][sig], x.phase.Waiting?, tb, tp);
    }
  }

  /** Leaving drops the obligations about the cells. */
  lemma {:induction false} LeaveSynced(slots: seq<Slot>, sv: map<Key, Sv>, x: Proc, tb: seq<ToBus>, tp: seq<ToProc>,
                                       sent: seq<ToBus>)
    requires Synced(slots, sv, x, tb, tp) && !x.phase.Gone? && PhaseOk(slots, x.(phase := Gone))
    requires forall i | 0 <= i < |sent| :: sent[i].Exit?
    ensures Synced(slots, sv, x.(phase := Gone), tb + sent, tp)
  {
    hide Differs, CellsOk, CellSynced;
    var y, q := x.(phase := Gone), tb + sent;
    forall i | 0 <= i < IndexesSent(slots, y) && !OnBus(slots[i], sv) ensures IndexAsked(slots[i], q) {
      AskedLater(slots[i], tb, sent);
    }
    assert forall j | |tb| <= j < |q| :: q[j] == sent[j - |tb|];
  }

  /** A message that is no Start is taken. */
  lemma {:induction false} PopSynced(slots: seq<Slot>, sv: map<Key, Sv>, x: Proc, tb: seq<ToBus>, tp: seq<ToProc>)
    requires Synced(slots, sv, x, tb, tp) && tp != [] && !tp[0].Start?
    ensures Synced(slots, sv, x, tb, tp[1..])
  {
    hide Differs, IndexedOk;
    StartsFirst(tp);
    if !x.phase.Gone? {
      forall i, sig | 0 <= i < |slots| && sig in x.cells[i]
        ensures CellSynced(sv, Key(slots[i].ch, sig), i, x.cells[i][sig], x.phase.Waiting?, tb, tp[1..])
      {
        assert CellSynced(sv, Key(slots[i].ch, sig), i, x.cells[i][sig], x.phase.Waiting?, tb, tp);
      }
    }
  }

  /** All indexed: the first Ready comes next. */
  lemma {:induction false} RunningSynced(slots: seq<Slot>, sv: map<Key, Sv>, x: Proc, tb: seq<ToBus>, tp: seq<ToProc>)
    requires Synced(slots, sv, x, tb, tp) && x.phase.Indexing? && x.phase.i + 1 == |slots|
    ensures Synced(slots, sv, x.(phase := Running), tb, tp)
  {
    hide Differs, CellsOk;
  }

  /** The Start is taken: the replica has the bus's values, and nothing left to write. */
  lemma {:induction false} StartSynced(slots: seq<Slot>, sv: map<Key, Sv>, x: Proc, tb: seq<ToBus>, tp: seq<ToProc>,
                                       y: Proc)
    requires Synced(slots, sv, x, tb, tp) && x.phase.Waiting? && tp != [] && tp[0].Start? && Starts(tp) == 1
    requires y.phase.Running? && PhaseOk(slots, y) && y.readied == x.readied
        && y.cells == NotifiedAll(slots, x.cells, tp[0].delta)
    ensures Synced(slots, sv, y, tb, tp[1..])
  {
    hide Differs, Applied;
    StartsFirst(tp);
    StartsNone(tp[1..]);
    forall i, sig | 0 <= i < |slots| && sig in y.cells[i]
      ensures CellSynced(sv, Key(slots[i].ch, sig), i, y.cells[i][sig], false, tb, tp[1..])
    {
      var k, cell := Key(slots[i].ch, sig), x.cells[i][sig];
      assert CellSynced(sv, k, i, cell, true, tb, tp);
      NotifiedValue(cell, tp[0].delta, k);
    }
  }

  lemma {:induction false} NotifiedValue(cell: Cell, d: Delta, k: Key)
    requires cell.fin != cell.val ==> k in d.scalars
    ensures var r := MarshalledIn(Notified(cell, d, k)); r.val == r.fin == Applied(cell.val, d, k)
  {}

  /** A Ready is sent: what was written is in it, and differs from the bus. */
  lemma {:induction false} ReadySynced(slots: seq<Slot>, sv: map<Key, Sv>, x: Proc, tb: seq<ToBus>, tp: seq<ToProc>,
                                       fins: seq<map<nat, real>>, ops: seq<map<nat, seq<BinOp>>>)
    requires Synced(slots, sv, x, tb, tp) && x.phase.Running? && Starts(tp) == 0 && |slots| == |fins| == |ops|
    ensures |x.cells| == |slots|
    ensures var t := SentReady(slots, x, fins, ops); Synced(slots, sv, t.proc, tb + t.sent, tp)
  {
    hide Operated, MarshalledOut, OnBus;
    var t := SentReady(slots, x, fins, ops);
    var cells := SteppedAll(x.cells, fins, ops);
    var vs := EncodedAll(slots, cells);
    var q := tb + [Ready(vs)];
    StartsNone(tp);
    assert q[|tb|] == Ready(vs);
    forall i | 0 <= i < |slots| && !OnBus(slots[i], sv) ensures IndexAsked(slots[i], q) {
      AskedLater(slots[i], tb, [Ready(vs)]);
    }
    forall i, sig | 0 <= i < |slots| && sig in x.cells[i]
      ensures cells[i][sig].val == x.cells[i][sig].val == ValOf(sv, Key(slots[i].ch, sig))
    {
      assert CellSynced(sv, Key(slots[i].ch, sig), i, x.cells[i][sig], false, tb, tp);
      SteppedValue(x.cells[i][sig], if sig in ops[i] then ops[i][sig] else []);
    }
    hide CellSynced;
    assert Differs(sv, vs);
    forall i, sig | 0 <= i < |slots| && sig in t.proc.cells[i]
      ensures CellSynced(sv, Key(slots[i].ch, sig), i, t.proc.cells[i][sig], true, q, tp)
    {
      ReadyCell(slots, sv, cells, vs, tb, tp, i, sig);
    }
  }

  lemma {:induction false} SteppedValue(x: Cell, ops: seq<BinOp>)
    ensures MarshalledOut(Operated(x, ops)).val == x.val
  {
    if ops != [] {
      SteppedValue(x, ops[..|ops| - 1]);
    }
  }

  lemma {:induction false} ReadyCell(slots: seq<Slot>, sv: map<Key, Sv>, cells: seq<map<nat, Cell>>, vs: seq<Vector>,
                                     tb: seq<ToBus>, tp: seq<ToProc>, i: nat, sig: nat)
    requires |cells| == |slots| && vs == EncodedAll(slots, cells) && i < |slots| && sig in cells[i]
    requires cells[i][sig].val == ValOf(sv, Key(slots[i].ch, sig)) && Starts(tp) == 0
    ensures CellSynced(sv, Key(slots[i].ch, sig), i, cells[i][sig].(bin := []), true, tb + [Ready(vs)], tp)
  {
    StartsNone(tp);
    var q := tb + [Ready(vs)];
    assert q[|tb|] == Ready(vs);
    if cells[i][sig].fin != cells[i][sig].val {
      assert sig in vs[i].scalars;
      assert Pending(q, i, sig);
    }
  }

  // ---- What the bus does ----

  /** The signals only grow, and values stay. */
  ghost predicate Grows(sv: map<Key, Sv>, r: map<Key, Sv>) {
    && (forall k | k in sv :: k in r) && (forall k | k in r :: ValOf(r, k) == ValOf(sv, k))
    && (forall k | Changed(sv, k) :: Changed(r, k))
  }

  lemma {:induction false} GrowsSynced(slots: seq<Slot>, sv: map<Key, Sv>, r: map<Key, Sv>, x: Proc, tb: seq<ToBus>,
                                       tp: seq<ToProc>)
    requires Synced(slots, sv, x, tb, tp) && Grows(sv, r)
    ensures Synced(slots, r, x, tb, tp)
  {
    SameValues(sv, r);
    forall j | 0 <= j < |tb| && tb[j].Ready? ensures Differs(r, tb[j].vectors) {
      assert Differs(sv, tb[j].vectors);
    }
    if !x.phase.Gone? {
      hide Pending, Applied;
      forall i, sig | 0 <= i < |slots| && sig in x.cells[i]
        ensures CellSynced(r, Key(slots[i].ch, sig), i, x.cells[i][sig], x.phase.Waiting?, tb, tp)
      {
        assert CellSynced(sv, Key(slots[i].ch, sig), i, x.cells[i][sig], x.phase.Waiting?, tb, tp);
      }
    }
  }

  lemma {:induction false} SameValues(sv: map<Key, Sv>, r: map<Key, Sv>)
    requires Grows(sv, r)
    ensures forall k :: ValOf(r, k) == ValOf(sv, k)
  {}

  lemma {:induction false} IndexedGrows(sv: map<Key, Sv>, ch: nat, signals: set<nat>)
    ensures Grows(sv, Indexed(sv, ch, signals))
    ensures forall x | x in signals :: Key(ch, x) in Indexed(sv, ch, signals)
  {}

  lemma {:induction false} WrittenGrows(sv: map<Key, Sv>, vs: seq<Vector>)
    requires Differs(sv, vs)
    ensures Grows(sv, WriteAll(sv, vs))
    ensures forall k | k in sv && Writes(vs, k) :: Changed(WriteAll(sv, vs), k)
  {
    hide Differs, Writes;
    forall k | k in sv
      ensures WriteAll(sv, vs)[k].val == sv[k].val
      ensures Changed(sv, k) || Writes(vs, k) ==> Changed(WriteAll(sv, vs), k)
    {
      WrittenBins(sv, vs, k);
      if Changed(sv, k) || Writes(vs, k) {
        WrittenChanged(sv, vs, k);
      }
    }
  }

  /** The head of a queue goes; it is no Ready, and an Index only after its signals are on the bus. */
  lemma {:induction false} HeadSynced(slots: seq<Slot>, sv: map<Key, Sv>, x: Proc, tb: seq<ToBus>, tp: seq<ToProc>)
    requires Synced(slots, sv, x, tb, tp) && tb != [] && !tb[0].Ready?
    requires tb[0].Index? ==> forall s | s in tb[0].signals :: Key(tb[0].ch, s) in sv
    ensures Synced(slots, sv, x, tb[1..], tp)
  {
    hide Differs, Changed, Applied;
    forall i | 0 <= i < IndexesSent(slots, x) && !OnBus(slots[i], sv) ensures IndexAsked(slots[i], tb[1..]) {
      var j :| 0 <= j < |tb| && tb[j].Index? && tb[j].ch == slots[i].ch && tb[j].signals == slots[i].signals;
      if j > 0 {
        assert tb[1..][j - 1] == tb[j];
      }
    }
    if !x.phase.Gone? {
      forall i, sig | 0 <= i < |slots| && sig in x.cells[i]
        ensures CellSynced(sv, Key(slots[i].ch, sig), i, x.cells[i][sig], x.phase.Waiting?, tb[1..], tp)
      {
        assert CellSynced(sv, Key(slots[i].ch, sig), i, x.cells[i][sig], x.phase.Waiting?, tb, tp);
        PendingHead(tb, i, sig);
      }
    }
  }

  lemma {:induction false} PendingHead(tb: seq<ToBus>, i: nat, sig: nat)
    requires tb != []
    ensures Pending(tb, i, sig) ==>
              Pending(tb[1..], i, sig) || (tb[0].Ready? && i < |tb[0].vectors| && sig in tb[0].vectors[i].scalars)
  {
    if Pending(tb, i, sig) {
      var j :| 0 <= j < |tb| && tb[j].Ready? && i < |tb[j].vectors| && sig in tb[j].vectors[i].scalars;
      if j > 0 {
        assert tb[1..][j - 1] == tb[j];
      }
    }
  }

  /** The Ready at the head is written to the bus. */
  lemma {:induction false} ReadyTaken(slots: seq<Slot>, sv: map<Key, Sv>, x: Proc, tb: seq<ToBus>, tp: seq<ToProc>)
    requires Synced(slots, sv, x, tb, tp) && tb != [] && tb[0].Ready? && FromSlot(slots, tb[0])
    requires x.readied > 0 && forall j | 0 <= j < |tb| :: !tb[j].Index?
    ensures Grows(sv, WriteAll(sv, tb[0].vectors))
    ensures Synced(slots, WriteAll(sv, tb[0].vectors), x, tb[1..], tp)
  {
    var vs := tb[0].vectors;
    var r := WriteAll(sv, vs);
    WrittenGrows(sv, vs);
    GrowsSynced(slots, sv, r, x, tb, tp);
    hide Grows, Differs, Applied, Changed;
    if !x.phase.Gone? {
      forall i, sig | 0 <= i < |slots| && sig in x.cells[i]
        ensures CellSynced(r, Key(slots[i].ch, sig), i, x.cells[i][sig], x.phase.Waiting?, tb[1..], tp)
      {
        var k := Key(slots[i].ch, sig);
        assert CellSynced(r, k, i, x.cells[i][sig], x.phase.Waiting?, tb, tp);
        PendingHead(tb, i, sig);
        assert OnBus(slots[i], sv);
        if sig in vs[i].scalars {
          assert Writes(vs, k);
        }
      }
    }
  }

  lemma {:induction false} AckSynced(slots: seq<Slot>, sv: map<Key, Sv>, x: Proc, tb: seq<ToBus>, tp: seq<ToProc>,
                                     m: ToProc)
    requires Synced(slots, sv, x, tb, tp) && !m.Start?
    ensures Synced(slots, sv, x, tb, tp + [m])
  {
    hide Differs, Applied, Changed, Pending, IndexedOk;
    StartsAppend(tp, m);
    if !x.phase.Gone? {
      forall i, sig | 0 <= i < |slots| && sig in x.cells[i]
        ensures CellSynced(sv, Key(slots[i].ch, sig), i, x.cells[i][sig], x.phase.Waiting?, tb, tp + [m])
      {
        assert CellSynced(sv, Key(slots[i].ch, sig), i, x.cells[i][sig], x.phase.Waiting?, tb, tp);
      }
    }
  }

  /** The cycle ends: what is not in the Start has not changed. */
  lemma {:induction false} ResolveSynced(slots: seq<Slot>, sv: map<Key, Sv>, x: Proc, tb: seq<ToBus>,
                                         tp: seq<ToProc>, m: ToProc)
    requires Synced(slots, sv, x, tb, tp) && m.Start? && m.delta == DeltaOf(sv) && Starts(tp) == 0 && Readies(tb) == 0
    requires x.phase.Waiting? || x.phase.Gone?
    ensures Synced(slots, Resolve(sv), x, tb, tp + [m])
  {
    StartsAppend(tp, m);
    StartsNone(tp);
    ReadiesNone(tb);
    var r := Resolve(sv);
    assert forall i | 0 <= i < |slots| && OnBus(slots[i], sv) :: OnBus(slots[i], r);
    hide Differs, OnBus;
    if !x.phase.Gone? {
      forall i, sig | 0 <= i < |slots| && sig in x.cells[i]
        ensures CellSynced(r, Key(slots[i].ch, sig), i, x.cells[i][sig], true, tb, tp + [m])
      {
        assert CellSynced(sv, Key(slots[i].ch, sig), i, x.cells[i][sig], true, tb, tp);
        ResolvedCell(sv, Key(slots[i].ch, sig), i, x.cells[i][sig], tb, tp, m);
      }
    }
  }

  lemma {:induction false} ResolvedCell(sv: map<Key, Sv>, k: Key, i: nat, cell: Cell, tb: seq<ToBus>,
                                        tp: seq<ToProc>, m: ToProc)
    requires CellSynced(sv, k, i, cell, true, tb, tp) && m.Start? && m.delta == DeltaOf(sv)
    requires Starts(tp) == 0 && Starts(tp + [m]) == 1 && !Pending(tb, i, k.sig)
    ensures CellSynced(Resolve(sv), k, i, cell, true, tb, tp + [m])
  {
    StartsNone(tp);
  }

  // ---- Every step keeps the replicas in step ----

  lemma {:induction false} TakenSynced(slots: seq<Slot>, step: real, b: Bus, p: nat, x: Proc, tb: seq<ToBus>,
                                       tp: seq<ToProc>)
    requires ProcInv(slots, step, b, p, x, tb, tp) && Synced(slots, b.sv, x, tb, tp)
    requires tp != [] && Receiving(x) && |x.cells| == |slots|
    ensures var t := Taken(slots, x, tp[0]); Synced(slots, b.sv, t.proc, tb + t.sent, tp[1..])
  {
    hide Core, Served, Synced, NotifiedAll;
    CorePhase(slots, step, b, p, x, tb, tp);
    var m, t := tp[0], Taken(slots, x, tp[0]);
    assert tb + [] == tb;
    if x.phase.Waiting? && m.Start? {
      StartInFlight(slots, step, b, p, x, tb, tp, 0);
      StartSynced(slots, b.sv, x, tb, tp, t.proc);
    } else {
      if !x.phase.Waiting? {
        NoStartYet(slots, step, b, p, x, tb, tp);
      }
      PopSynced(slots, b.sv, x, tb, tp);
      if t != Turn(x, []) {
        if t.proc.phase.Running? {
          RunningSynced(slots, b.sv, x, tb, tp[1..]);
        } else {
          NextRequest(slots, x, m);
          RequestSynced(slots, b.sv, x, tb, tp[1..], t.proc, t.sent[0]);
        }
      }
    }
  }

  /** The next request goes one slot further at most, and indexes it. */
  lemma {:induction false} NextRequest(slots: seq<Slot>, x: Proc, m: ToProc)
    requires Receiving(x) && PhaseOk(slots, x) && |x.cells| == |slots| && !x.phase.Waiting?
    requires var t := Taken(slots, x, m); t != Turn(x, []) && !t.proc.phase.Running?
    ensures var t := Taken(slots, x, m);
            && PhaseOk(slots, t.proc) && t.proc.cells == x.cells && (t.proc.phase.Connecting? || t.proc.phase.Indexing?)
            && |t.sent| == 1 && !t.sent[0].Ready? && t.sent == [t.sent[0]]
            && IndexesSent(slots, t.proc) <= IndexesSent(slots, x) + 1
            && (IndexesSent(slots, t.proc) == IndexesSent(slots, x) + 1 ==>
                  var slot := slots[IndexesSent(slots, x)];
                  t.sent[0].Index? && t.sent[0].ch == slot.ch && t.sent[0].signals == slot.signals)
  {}

  lemma {:induction false} TimedOutSynced(slots: seq<Slot>, sv: map<Key, Sv>, x: Proc, tb: seq<ToBus>, tp: seq<ToProc>)
    requires Synced(slots, sv, x, tb, tp) && x.phase.Connecting? && x.phase.i < |slots|
    ensures var t := TimedOut(slots, x); Synced(slots, sv, t.proc, tb + t.sent, tp)
  {
    var t := TimedOut(slots, x);
    assert t.sent == [t.sent[0]];
    assert PhaseOk(slots, x);
    hide Synced;
    RequestSynced(slots, sv, x, tb, tp, t.proc, t.sent[0]);
  }

  lemma {:induction false} ActedSynced(c: Config, s: State, p: nat, t: Turn, tp: seq<ToProc>)
    requires Shape(c, s) && ReplicaInv(c, s) && p < |s.procs|
    requires Synced(c.procs[p], s.bus.sv, t.proc, s.toBus[p] + t.sent, tp)
    requires Shape(c, Acted(s.(toProc := s.toProc[p := tp]), p, t))
    ensures ReplicaInv(c, Acted(s.(toProc := s.toProc[p := tp]), p, t))
  {
    hide Synced, PhaseOk, FromSlot;
  }

  lemma {:induction false} LocalStepSynced(c: Config, s: State, a: Action)
    requires Inv(c, s) && ReplicaInv(c, s) && Enabled(c, s, a) && !a.BusTakes? && Shape(c, Step(c, s, a))
    ensures ReplicaInv(c, Step(c, s, a))
  {
    hide Core, Served, BusInv, FromSlot, Taken, TimedOut, SentReady, ExitAll, Acted, Synced;
    var p := a.p;
    var slots, x, tb, tp := c.procs[p], s.procs[p], s.toBus[p], s.toProc[p];
    assert s.toProc[p := tp] == s.toProc;
    assert ProcInv(slots, c.step, s.bus, p, x, tb, tp) && Synced(slots, s.bus.sv, x, tb, tp);
    match a
    case ProcTakes(_) =>
      TakenSynced(slots, c.step, s.bus, p, x, tb, tp);
      ActedSynced(c, s, p, Taken(slots, x, tp[0]), tp[1..]);
    case TimesOut(_) =>
      TimedOutSynced(slots, s.bus.sv, x, tb, tp);
      ActedSynced(c, s, p, TimedOut(slots, x), tp);
    case SendsReady(_, fins, ops) =>
      NoStartYet(slots, c.step, s.bus, p, x, tb, tp);
      ReadySynced(slots, s.bus.sv, x, tb, tp, fins, ops);
      ActedSynced(c, s, p, SentReady(slots, x, fins, ops), tp);
    case SendsExit(_) =>
      ExitsOnly(slots);
      LeaveSynced(slots, s.bus.sv, x, tb, tp, ExitAll(slots));
      ActedSynced(c, s, p, Turn(x.(phase := Gone), ExitAll(slots)), tp);
    case Crashes(_) =>
      LeaveSynced(slots, s.bus.sv, x, tb, tp, []);
      ActedSynced(c, s, p, Turn(x.(phase := Gone), []), tp);
  }

  /** All queues after the head of p's is taken and m, which is no Start, is sent. */
  lemma {:induction false} HeadTaken(c: Config, s: State, p: nat, b: Bus, m: ToProc)
    requires Shape(c, s) && ReplicaInv(c, s) && p < |s.procs| && s.toBus[p] != [] && !s.toBus[p][0].Ready? && !m.Start?
    requires Grows(s.bus.sv, b.sv)
    requires s.toBus[p][0].Index? ==> forall x | x in s.toBus[p][0].signals :: Key(s.toBus[p][0].ch, x) in b.sv
    ensures forall q | 0 <= q < |s.procs| ::
              var tb := if q == p then s.toBus[q][1..] else s.toBus[q];
              && Synced(c.procs[q], b.sv, s.procs[q], tb, s.toProc[q])
              && Synced(c.procs[q], b.sv, s.procs[q], tb, s.toProc[q] + [m])
  {
    hide Synced, Grows, PhaseOk, FromSlot;
    forall q | 0 <= q < |s.procs|
      ensures var tb := if q == p then s.toBus[q][1..] else s.toBus[q];
              && Synced(c.procs[q], b.sv, s.procs[q], tb, s.toProc[q])
              && Synced(c.procs[q], b.sv, s.procs[q], tb, s.toProc[q] + [m])
    {
      GrowsSynced(c.procs[q], s.bus.sv, b.sv, s.procs[q], s.toBus[q], s.toProc[q]);
      if q == p {
        HeadSynced(c.procs[q], b.sv, s.procs[q], s.toBus[q], s.toProc[q]);
      }
      AckSynced(c.procs[q], b.sv, s.procs[q], if q == p then s.toBus[q][1..] else s.toBus[q], s.toProc[q], m);
    }
  }

  lemma {:induction false} RequestTakenSynced(c: Config, s: State, p: nat)
    requires Shape(c, s) && ReplicaInv(c, s) && p < |s.procs| && s.toBus[p] != [] && !s.toBus[p][0].Ready?
    requires Shape(c, BusStep(c, s, p))
    ensures ReplicaInv(c, BusStep(c, s, p))
  {
    hide Synced, PhaseOk, FromSlot, Indexed, Grows;
    var r := BusStep(c, s, p);
    SameGrows(s.bus.sv);
    match s.toBus[p][0]
    case Register(uid, ch, token) => HeadTaken(c, s, p, r.bus, RegisterAck(uid, token));
    case Index(uid, ch, token, signals) =>
      IndexedGrows(s.bus.sv, ch, signals);
      HeadTaken(c, s, p, r.bus, IndexAck(uid, token));
    case Exit(uid, ch) => HeadTaken(c, s, p, r.bus, RegisterAck(0, 0));
  }

  lemma {:induction false} SameGrows(sv: map<Key, Sv>)
    ensures Grows(sv, sv)
  {}

  /** A Ready at the head was sent after every Index, and all Indexes are taken. */
  lemma {:induction false} ReadyHead(slots: seq<Slot>, step: real, b: Bus, p: nat, x: Proc, tb: seq<ToBus>,
                                     tp: seq<ToProc>)
    requires Core(slots, step, b, p, x, tb, tp) && tb != [] && tb[0].Ready?
    ensures x.readied > 0 && forall j | 0 <= j < |tb| :: !tb[j].Index?
  {
    ReadiesFirst(tb);
    assert forall j | 0 <= j < |tb| :: Rank(tb[0]) <= Rank(tb[j]);
  }

  /** All processes once the Ready of p is written, before the check that ends the cycle. */
  lemma {:induction false} ReadiedSynced(c: Config, s: State, p: nat)
    requires Inv(c, s) && ReplicaInv(c, s) && p < |s.procs| && s.toBus[p] != [] && s.toBus[p][0].Ready?
    requires FromSlot(c.procs[p], s.toBus[p][0])
    ensures forall q | 0 <= q < |s.procs| ::
              Synced(c.procs[q], WriteAll(s.bus.sv, s.toBus[p][0].vectors), s.procs[q],
                     if q == p then s.toBus[q][1..] else s.toBus[q], s.toProc[q])
  {
    hide Synced, Core, Served, PhaseOk, Grows, BusInv, FromSlot;
    var b := WriteAll(s.bus.sv, s.toBus[p][0].vectors);
    assert ProcInv(c.procs[p], c.step, s.bus, p, s.procs[p], s.toBus[p], s.toProc[p]);
    ReadyHead(c.procs[p], c.step, s.bus, p, s.procs[p], s.toBus[p], s.toProc[p]);
    ReadyTaken(c.procs[p], s.bus.sv, s.procs[p], s.toBus[p], s.toProc[p]);
    forall q | 0 <= q < |s.procs|
      ensures Synced(c.procs[q], b, s.procs[q], if q == p then s.toBus[q][1..] else s.toBus[q], s.toProc[q])
    {
      if q != p {
        GrowsSynced(c.procs[q], s.bus.sv, b, s.procs[q], s.toBus[q], s.toProc[q]);
      }
    }
  }

  lemma {:induction false} ReadyTakenSynced(c: Config, s: State, p: nat)
    requires Inv(c, s) && ReplicaInv(c, s) && p < |s.procs| && s.toBus[p] != [] && s.toBus[p][0].Ready?
    requires Shape(c, BusStep(c, s, p))
    ensures ReplicaInv(c, BusStep(c, s, p))
  {
    hide Synced, ProcInv, PhaseOk, Readied, Resolved, BusInv, BusCore, NetworkReady, ModelsReady, FromSlot, StartOf;
    var r, vs := BusStep(c, s, p), s.toBus[p][0].vectors;
    assert FromSlot(c.procs[p], s.toBus[p][0]);
    var b := Readied(s.bus, p, vs);
    ReadiedSv(s.bus, p, vs, c.step);
    ReadiedSynced(c, s, p);
    ReadiedAll(c, s, p);
    CoreSizes(c, b);
    if NetworkReady(c, b) && ModelsReady(c, b) {
      AllAnswered(c, b);
      forall q | 0 <= q < |s.procs|
        ensures Synced(c.procs[q], r.bus.sv, r.procs[q], r.toBus[q], r.toProc[q])
      {
        CycleEnds(c.procs[q], c.step, b, q, s.procs[q], r.toBus[q], s.toProc[q]);
        ResolveSynced(c.procs[q], b.sv, s.procs[q], r.toBus[q], s.toProc[q], StartOf(b, c.step));
      }
    }
  }

  lemma {:induction false} ReadiedSv(b: Bus, p: nat, vs: seq<Vector>, step: real)
    ensures Readied(b, p, vs).sv == WriteAll(b.sv, vs)
    ensures forall d ::
              && Resolved(d, step).sv == Resolve(d.sv)
              && StartOf(d, step).Start? && StartOf(d, step).delta == DeltaOf(d.sv)
  {}

  /** At the end of a cycle a process waits, or has gone; nothing of it is in flight. */
  lemma {:induction false} CycleEnds(slots: seq<Slot>, step: real, b: Bus, p: nat, x: Proc, tb: seq<ToBus>,
                                     tp: seq<ToProc>)
    requires ProcInv(slots, step, b, p, x, tb, tp) && slots != []
    requires slots[0].ch < |b.rdy| && slots[0].uid in b.rdy[slots[0].ch]
    ensures Starts(tp) == 0 && Readies(tb) == 0 && (x.phase.Waiting? || x.phase.Gone?)
    ensures p in b.known
  {}

  lemma {:induction false} StepSynced(c: Config, s: State, a: Action)
    requires Inv(c, s) && ReplicaInv(c, s) && Enabled(c, s, a)
    ensures Inv(c, Step(c, s, a)) && ReplicaInv(c, Step(c, s, a))
  {
    StepKeeps(c, s, a);
    InvShape(c, Step(c, s, a));
    hide Inv, ReplicaInv, BusStep;
    if a.BusTakes? {
      if s.toBus[a.p][0].Ready? {
        ReadyTakenSynced(c, s, a.p);
      } else {
        RequestTakenSynced(c, s, a.p);
      }
    } else {
      LocalStepSynced(c, s, a);
    }
  }

  lemma {:induction false} InitSynced(c: Config)
    requires c.Valid() && Shape(c, Init(c))
    ensures ReplicaInv(c, Init(c))
  {
    var s := Init(c);
    forall p | 0 <= p < |c.procs|
      ensures Synced(c.procs[p], s.bus.sv, s.procs[p], s.toBus[p], s.toProc[p])
    {
      NewSynced(c.procs[p], s.bus.sv);
    }
  }

  lemma {:induction false} NewSynced(slots: seq<Slot>, sv: map<Key, Sv>)
    requires slots != [] && forall k | k in sv :: sv[k] == Sv(0.0, 0.0, [])
    ensures var t := NewProc(slots); Synced(slots, sv, t.proc, t.sent, [])
  {}

  lemma {:induction false} TraceSynced(c: Config, acts: seq<Action>, states: seq<State>, n: nat)
    requires Trace(c, acts, states) && n <= |acts|
    ensures Inv(c, states[n]) && ReplicaInv(c, states[n])
  {
    hide Inv, ReplicaInv, Step, Enabled;
    if n == 0 {
      InitKeeps(c);
      InvShape(c, Init(c));
      InitSynced(c);
    } else {
      TraceSynced(c, acts, states, n - 1);
      StepSynced(c, states[n - 1], acts[n - 1]);
    }
  }

  /** At any time a replica, with the Start in flight applied, has the bus's value. */
  lemma {:induction false} ReplicaIsBus(c: Config, acts: seq<Action>, states: seq<State>, n: nat, p: nat, i: nat,
                                        sig: nat)
    requires Trace(c, acts, states) && n <= |acts| && Shape(c, states[n]) && p < |c.procs| && i < |c.procs[p]|
    requires !states[n].procs[p].phase.Gone? && sig in states[n].procs[p].cells[i]
    ensures var s := states[n];
            var k, cell := Key(c.procs[p][i].ch, sig), s.procs[p].cells[i][sig];
            && (Starts(s.toProc[p]) == 0 ==> cell.val == ValOf(s.bus.sv, k))
            && (forall j | 0 <= j < |s.toProc[p]| && s.toProc[p][j].Start? ::
                  Applied(cell.val, s.toProc[p][j].delta, k) == ValOf(s.bus.sv, k))
  {
    var s := states[n];
    TraceSynced(c, acts, states, n);
    hide Trace, Inv, PhaseOk, FromSlot;
    assert Synced(c.procs[p], s.bus.sv, s.procs[p], s.toBus[p], s.toProc[p]);
    assert CellSynced(s.bus.sv, Key(c.procs[p][i].ch, sig), i, s.procs[p].cells[i][sig], s.procs[p].phase.Waiting?,
        s.toBus[p], s.toProc[p]);
  }

  /** After a Start is taken, and until the next Ready, val == final_val ==
      the bus's val for every signal of the process. */
  lemma {:induction false} AfterStart(c: Config, acts: seq<Action>, states: seq<State>, n: nat, p: nat, i: nat,
                                      sig: nat)
    requires Trace(c, acts, states) && n <= |acts| && Shape(c, states[n]) && p < |c.procs| && i < |c.procs[p]|
    requires states[n].procs[p].phase.Running? && sig in states[n].procs[p].cells[i]
    ensures var s := states[n];
            var cell := s.procs[p].cells[i][sig];
            cell.val == cell.fin == ValOf(s.bus.sv, Key(c.procs[p][i].ch, sig))
  {
    var s := states[n];
    TraceSynced(c, acts, states, n);
    assert ProcInv(c.procs[p], c.step, s.bus, p, s.procs[p], s.toBus[p], s.toProc[p]);
    NoStartYet(c.procs[p], c.step, s.bus, p, s.procs[p], s.toBus[p], s.toProc[p]);
    hide Trace, Inv, PhaseOk, FromSlot;
    assert Synced(c.procs[p], s.bus.sv, s.procs[p], s.toBus[p], s.toProc[p]);
    assert CellSynced(s.bus.sv, Key(c.procs[p][i].ch, sig), i, s.procs[p].cells[i][sig], s.procs[p].phase.Waiting?,
        s.toBus[p], s.toProc[p]);
  }
}
