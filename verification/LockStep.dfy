/** The SimBus protocol: processes register, index, send Ready and wait for Start; the bus is a barrier. */
module LockStep {
  import opened BusData

  // ---- Configuration ----

  /** One model of a process on one channel, with its signals. */
  datatype Slot = Slot(uid: nat, ch: nat, signals: set<nat>)

  datatype Config = Config(procs: seq<seq<Slot>>, channels: nat, step: real, declared: set<Key>)
  {
    ghost predicate Valid() {
      && step > 0.0 && procs != []
      && (forall p | 0 <= p < |procs| :: procs[p] != [])
      && (forall p, i | 0 <= p < |procs| && 0 <= i < |procs[p]| :: procs[p][i].ch < channels)
      && (forall p, q, i, j | 0 <= p < |procs| && 0 <= q < |procs| && p != q && 0 <= i < |procs[p]|
          && 0 <= j < |procs[q]| ::
            procs[p][i].uid != procs[q][j].uid)
    }

    /** The UIDs on a channel; their number is the channel's expected_model_count. */
    function Members(ch: nat): set<nat> {
      set p, i | 0 <= p < |procs| && 0 <= i < |procs[p]| && procs[p][i].ch == ch :: procs[p][i].uid
    }
  }

  const RETRIES: nat := 5

  // ---- Messages and states ----

  datatype ToBus =
    | Register(uid: nat, ch: nat, token: nat)
    | Index(uid: nat, ch: nat, token: nat, signals: set<nat>)
    | Ready(vectors: seq<Vector>)
    | Exit(uid: nat, ch: nat)

  datatype ToProc =
    | RegisterAck(uid: nat, token: nat)
    | IndexAck(uid: nat, token: nat)
    | Start(time: real, stop: real, delta: Delta)

  /** What a process does: waits for the ACK of slot i, steps its models, waits for a Start, or has left. */
  datatype Phase = Connecting(i: nat, tries: nat) | Indexing(i: nat) | Running | Waiting | Gone

  /**
   * asked counts the slots a Register was sent for; started and readied the Starts taken and the Readies sent.
   * out records the vectors of the Readies, and decides nothing.
   */
  datatype Proc = Proc(phase: Phase, token: nat, asked: nat, started: nat, readied: nat,
                       time: real, stop: real, cells: seq<map<nat, Cell>>, out: seq<seq<Vector>>)

  /** A Ready taken in the current cycle. */
  datatype Entry = Entry(proc: nat, vectors: seq<Vector>)

  /** known: the endpoints that messages go to. rounds, entries and left record the past and decide nothing. */
  datatype Bus = Bus(reg: seq<set<nat>>, rdy: seq<set<nat>>, known: set<nat>, time: real, sv: map<Key, Sv>, exit: bool,
                     entries: seq<Entry>, rounds: seq<seq<Entry>>, left: set<nat>)

  datatype State = State(bus: Bus, procs: seq<Proc>, toBus: seq<seq<ToBus>>, toProc: seq<seq<ToProc>>)

  ghost predicate Shape(c: Config, s: State) {
    && |s.procs| == |s.toBus| == |s.toProc| == |c.procs| && |s.bus.reg| == |s.bus.rdy| == c.channels
    && (forall p | 0 <= p < |s.procs| :: |s.procs[p].cells| == |c.procs[p]|)
    && (forall p | 0 <= p < |s.procs| :: PhaseOk(c.procs[p], s.procs[p]))
    && (forall p, i | 0 <= p < |s.procs| && 0 <= i < |s.toBus[p]| :: FromSlot(c.procs[p], s.toBus[p][i]))
    && (forall p, i | 0 <= p < |c.procs| && 0 <= i < |c.procs[p]| :: c.procs[p][i].ch < c.channels)
  }

  predicate PhaseOk(slots: seq<Slot>, x: Proc) {
    match x.phase
    case Connecting(i, _) => i < |slots| && x.asked == i + 1 && x.started == x.readied == 0
    case Indexing(i) => i < |slots| == x.asked && x.started == x.readied == 0
    case Running => x.asked == |slots| && x.readied == x.started
    case Waiting => x.asked == |slots| && x.readied == x.started + 1
    case Gone => x.asked <= |slots| && x.started <= x.readied <= x.started + 1 && (x.readied > 0 ==> x.asked == |slots|)
  }

  predicate FromSlot(slots: seq<Slot>, m: ToBus) {
    match m
    case Register(uid, ch, _) => exists i :: 0 <= i < |slots| && slots[i].uid == uid && slots[i].ch == ch
    case Index(uid, ch, _, signals) => exists i :: 0 <= i < |slots| && slots[i] == Slot(uid, ch, signals)
    case Ready(vs) =>
      |vs| == |slots| && forall i | 0 <= i < |vs| :: vs[i].uid == slots[i].uid && vs[i].ch == slots[i].ch
    case Exit(uid, ch) => exists i :: 0 <= i < |slots| && slots[i].uid == uid && slots[i].ch == ch
  }

  // ---- Bus steps ----

  predicate NetworkReady(c: Config, b: Bus)
    requires |b.reg| == c.channels
  {
    forall ch | 0 <= ch < c.channels :: |c.Members(ch)| == |b.reg[ch]|
  }

  predicate ModelsReady(c: Config, b: Bus)
    requires |b.rdy| == c.channels
  {
    forall ch | 0 <= ch < c.channels :: |c.Members(ch)| == |b.rdy[ch]|
  }

  function Broadcast(known: set<nat>, q: seq<seq<ToProc>>, m: ToProc): (r: seq<seq<ToProc>>)
    ensures |r| == |q|
  {
    seq(|q|, p requires 0 <= p < |q| => if p in known then q[p] + [m] else q[p])
  }

  function Registers(b: Bus, p: nat, uid: nat, ch: nat): Bus
    requires ch < |b.reg|
  {
    b.(reg := b.reg[ch := b.reg[ch] + {uid}], known := b.known + {p})
  }

  /** The UIDs of a Ready's vectors on channel ch. */
  function ReadyUids(vs: seq<Vector>, ch: nat): set<nat> {
    set i | 0 <= i < |vs| && vs[i].ch == ch :: vs[i].uid
  }

  function Readied(b: Bus, p: nat, vs: seq<Vector>): Bus {
    b.(sv := WriteAll(b.sv, vs), rdy := seq(|b.rdy|, ch requires 0 <= ch < |b.rdy| => b.rdy[ch] + ReadyUids(vs, ch)),
       entries := b.entries + [Entry(p, vs)])
  }

  /** Time moves by a step, every channel is resolved, and the ready sets are cleared. */
  function Resolved(b: Bus, step: real): Bus {
    b.(time := b.time + step, sv := Resolve(b.sv), rdy := seq(|b.rdy|, ch => {}),
       entries := [], rounds := b.rounds + [b.entries])
  }

  function StartOf(b: Bus, step: real): ToProc {
    Start(b.time + step, b.time + step + step, DeltaOf(b.sv))
  }

  function Exits(b: Bus, p: nat, uid: nat, ch: nat): Bus
    requires ch < |b.reg| == |b.rdy|
  {
    var r := b.(reg := b.reg[ch := b.reg[ch] - {uid}], rdy := b.rdy[ch := b.rdy[ch] - {uid}], left := b.left + {p});
    r.(exit := forall d | 0 <= d < |r.reg| :: r.reg[d] == {})
  }

  // ---- Steps ----

  datatype Action =
    | BusTakes(p: nat)
    | ProcTakes(p: nat)
    | TimesOut(p: nat)
    | SendsReady(p: nat, fins: seq<map<nat, real>>, ops: seq<map<nat, seq<BinOp>>>)
    | SendsExit(p: nat)
    | Crashes(p: nat)

  predicate Receiving(x: Proc) {
    x.phase.Connecting? || x.phase.Indexing? || x.phase.Waiting?
  }

  ghost predicate Enabled(c: Config, s: State, a: Action)
    requires Shape(c, s)
  {
    a.p < |s.procs| &&
    match a
    case BusTakes(p) => s.toBus[p] != [] && !s.bus.exit
    case ProcTakes(p) => s.toProc[p] != [] && Receiving(s.procs[p])
    case TimesOut(p) => s.procs[p].phase.Connecting?
    case SendsReady(p, fins, ops) => s.procs[p].phase.Running? && |fins| == |ops| == |c.procs[p]|
    case SendsExit(p) => !s.procs[p].phase.Gone?
    case Crashes(p) => !s.procs[p].phase.Gone?
  }

  function Owns(slots: seq<Slot>, uid: nat): bool {
    exists i :: 0 <= i < |slots| && slots[i].uid == uid
  }

  /** A message and a process before and after; sent is what it puts on the bus queue. */
  datatype Turn = Turn(proc: Proc, sent: seq<ToBus>)

  function Ask(slots: seq<Slot>, x: Proc, i: nat, tries: nat): Turn
    requires i < |slots|
  {
    Turn(x.(phase := Connecting(i, tries), token := x.token + 1, asked := i + 1),
         [Register(slots[i].uid, slots[i].ch, x.token + 1)])
  }

  function AskIndex(slots: seq<Slot>, x: Proc, i: nat): Turn
    requires i < |slots|
  {
    Turn(x.(phase := Indexing(i), token := x.token + 1),
         [Index(slots[i].uid, slots[i].ch, x.token + 1, slots[i].signals)])
  }

  /** Slot i is connected, or given up on. */
  function Connected(slots: seq<Slot>, x: Proc, i: nat): Turn
    requires i < |slots|
  {
    if i + 1 < |slots| then Ask(slots, x, i + 1, 1) else AskIndex(slots, x, 0)
  }

  /** What a process makes of a message: with a token outstanding it takes an ACK with it, and discards all others. */
  function Taken(slots: seq<Slot>, x: Proc, m: ToProc): Turn
    requires Receiving(x) && PhaseOk(slots, x) && |x.cells| == |slots|
  {
    match x.phase
    case Connecting(i, _) =>
      if !m.Start? && Owns(slots, m.uid) && m.token == x.token then Connected(slots, x, i) else Turn(x, [])
    case Indexing(i) =>
      if !m.Start? && Owns(slots, m.uid) && m.token == x.token then
        if i + 1 < |slots| then AskIndex(slots, x, i + 1) else Turn(x.(phase := Running), [])
      else Turn(x, [])
    case _ =>
      if m.Start? then Turn(x.(phase := Running, started := x.started + 1, time := m.time, stop := m.stop,
                               cells := NotifiedAll(slots, x.cells, m.delta)), [])
      else Turn(x, [])
  }

  function TimedOut(slots: seq<Slot>, x: Proc): Turn
    requires x.phase.Connecting? && x.phase.i < |slots|
  {
    if x.phase.tries < RETRIES then Ask(slots, x, x.phase.i, x.phase.tries + 1) else Connected(slots, x, x.phase.i)
  }

  /** A process takes a Start: each model is notified, then its binaries are marshalled in. */
  function NotifiedAll(slots: seq<Slot>, cells: seq<map<nat, Cell>>, d: Delta): (r: seq<map<nat, Cell>>)
    requires |cells| == |slots|
    ensures |r| == |slots|
  {
    seq(|slots|, i requires 0 <= i < |slots| =>
      map x | x in cells[i] :: MarshalledIn(Notified(cells[i][x], d, Key(slots[i].ch, x))))
  }

  /** The cells once the models have stepped and everything is marshalled to the adapter. */
  function SteppedAll(cells: seq<map<nat, Cell>>, fins: seq<map<nat, real>>, ops: seq<map<nat,
                      seq<BinOp>>>): (r: seq<map<nat, Cell>>)
    requires |cells| == |fins| == |ops|
    ensures |r| == |cells|
  {
    seq(|cells|, i requires 0 <= i < |cells| =>
      map x | x in cells[i] :: MarshalledOut(
        Operated(cells[i][x], if x in ops[i] then ops[i][x] else [])).(fin := if x in fins[i] then
            fins[i][x] else cells[i][x].fin))
  }

  function Encoded(slot: Slot, cells: map<nat, Cell>): Vector {
    Outgoing(slot.uid, slot.ch, map x | x in cells :: SvOf(cells[x]))
  }

  function EncodedAll(slots: seq<Slot>, cells: seq<map<nat, Cell>>): (r: seq<Vector>)
    requires |cells| == |slots|
    ensures |r| == |slots|
  {
    seq(|slots|, i requires 0 <= i < |slots| => Encoded(slots[i], cells[i]))
  }

  /** Encoding consumes the binaries. */
  function Consumed(cells: seq<map<nat, Cell>>): (r: seq<map<nat, Cell>>)
    ensures |r| == |cells|
  {
    seq(|cells|, i requires 0 <= i < |cells| => map x | x in cells[i] :: cells[i][x].(bin := []))
  }

  function SentReady(slots: seq<Slot>, x: Proc, fins: seq<map<nat, real>>, ops: seq<map<nat, seq<BinOp>>>): Turn
    requires |x.cells| == |slots| == |fins| == |ops|
  {
    var cells := SteppedAll(x.cells, fins, ops);
    var vs := EncodedAll(slots, cells);
    Turn(x.(phase := Waiting, readied := x.readied + 1, time := x.stop, cells := Consumed(cells),
        out := x.out + [vs]), [Ready(vs)])
  }

  function ExitAll(slots: seq<Slot>): seq<ToBus> {
    seq(|slots|, i requires 0 <= i < |slots| => Exit(slots[i].uid, slots[i].ch))
  }

  function Acted(s: State, p: nat, t: Turn): State
    requires p < |s.procs| == |s.toBus|
  {
    s.(procs := s.procs[p := t.proc], toBus := s.toBus[p := s.toBus[p] + t.sent])
  }

  /** The bus handles the first message of process p. */
  ghost function BusStep(c: Config, s: State, p: nat): State
    requires Shape(c, s) && p < |s.procs| && s.toBus[p] != []
  {
    var m, t := s.toBus[p][0], s.(toBus := s.toBus[p := s.toBus[p][1..]]);
    assert FromSlot(c.procs[p], m);
    match m
    case Register(uid, ch, token) =>
      var b := Registers(s.bus, p, uid, ch);
      t.(bus := b, toProc := Broadcast(b.known, s.toProc, RegisterAck(uid, token)))
    case Index(uid, ch, token, signals) =>
      var b := s.bus.(sv := Indexed(s.bus.sv, ch, signals));
      t.(bus := b, toProc := Broadcast(b.known, s.toProc, IndexAck(uid, token)))
    case Ready(vs) =>
      var b := Readied(s.bus, p, vs);
      if NetworkReady(c, b) && ModelsReady(c, b)
      then t.(bus := Resolved(b, c.step), toProc := Broadcast(b.known, s.toProc, StartOf(b, c.step)))
      else t.(bus := b)
    case Exit(uid, ch) =>
      t.(bus := Exits(s.bus, p, uid, ch))
  }

  ghost function Step(c: Config, s: State, a: Action): State
    requires Shape(c, s) && Enabled(c, s, a)
  {
    var p := a.p;
    match a
    case BusTakes(_) => BusStep(c, s, p)
    case ProcTakes(_) =>
      Acted(s.(toProc := s.toProc[p := s.toProc[p][1..]]), p, Taken(c.procs[p], s.procs[p], s.toProc[p][0]))
    case TimesOut(_) => Acted(s, p, TimedOut(c.procs[p], s.procs[p]))
    case SendsReady(_, fins, ops) => Acted(s, p, SentReady(c.procs[p], s.procs[p], fins, ops))
    case SendsExit(_) => Acted(s, p, Turn(s.procs[p].(phase := Gone), ExitAll(c.procs[p])))
    case Crashes(_) => Acted(s, p, Turn(s.procs[p].(phase := Gone), []))
  }

  // ---- Runs ----

  function NewCells(slot: Slot): map<nat, Cell> {
    map x | x in slot.signals :: Cell(0.0, 0.0, [], [], false)
  }

  /** A process starts by asking for its first slot. */
  function NewProc(slots: seq<Slot>): Turn
    requires slots != []
  {
    Ask(slots, Proc(Running, 0, 0, 0, 0, 0.0, 0.0, seq(|slots|, i requires 0 <= i < |slots| => NewCells(slots[i])),
        []), 0, 1)
  }

  ghost function Init(c: Config): State
    requires c.Valid()
  {
    var n := |c.procs|;
    State(Bus(seq(c.channels, ch => {}), seq(c.channels, ch => {}), {}, 0.0 - c.step,
              map k | k in c.declared :: Sv(0.0, 0.0, []), false, [], [], {}),
          seq(n, p requires 0 <= p < n => NewProc(c.procs[p]).proc),
          seq(n, p requires 0 <= p < n => NewProc(c.procs[p]).sent),
          seq(n, p => []))
  }

  /** The states passed through, from the initial one, by one action after another. */
  ghost predicate Trace(c: Config, acts: seq<Action>, states: seq<State>) {
    && c.Valid() && |states| == |acts| + 1 && states[0] == Init(c)
    && forall i | 0 <= i < |acts| ::
         Shape(c, states[i]) && Enabled(c, states[i], acts[i]) && states[i + 1] == Step(c, states[i], acts[i])
  }

  // ---- Counting messages ----

  function Starts(q: seq<ToProc>): nat {
    if q == [] then 0 else Starts(q[..|q| - 1]) + if q[|q| - 1].Start? then 1 else 0
  }

  function Readies(q: seq<ToBus>): nat {
    if q == [] then 0 else Readies(q[..|q| - 1]) + if q[|q| - 1].Ready? then 1 else 0
  }

  lemma {:induction false} StartsFirst(q: seq<ToProc>)
    requires q != []
    ensures Starts(q) == (if q[0].Start? then 1 else 0) + Starts(q[1..])
  {
    if |q| > 1 {
      StartsFirst(q[..|q| - 1]);
      assert q[..|q| - 1][1..] == q[1..][..|q| - 2];
    }
  }

  lemma {:induction false} ReadiesFirst(q: seq<ToBus>)
    requires q != []
    ensures Readies(q) == (if q[0].Ready? then 1 else 0) + Readies(q[1..])
  {
    if |q| > 1 {
      ReadiesFirst(q[..|q| - 1]);
      assert q[..|q| - 1][1..] == q[1..][..|q| - 2];
    }
  }

  lemma {:induction false} StartsNone(q: seq<ToProc>)
    ensures Starts(q) == 0 <==> forall i | 0 <= i < |q| :: !q[i].Start?
  {
    if q != [] {
      StartsNone(q[..|q| - 1]);
    }
  }

  lemma {:induction false} ReadiesNone(q: seq<ToBus>)
    ensures Readies(q) == 0 <==> forall i | 0 <= i < |q| :: !q[i].Ready?
  {
    if q != [] {
      ReadiesNone(q[..|q| - 1]);
    }
  }

  lemma {:induction false} StartsAppend(q: seq<ToProc>, m: ToProc)
    ensures Starts(q + [m]) == Starts(q) + if m.Start? then 1 else 0
  {
    assert (q + [m])[..|q|] == q;
  }

  lemma {:induction false} ReadiesAppend(q: seq<ToBus>, r: seq<ToBus>)
    ensures Readies(q + r) == Readies(q) + Readies(r)
  {
    if r == [] {
      assert q + r == q;
    } else {
      ReadiesAppend(q, r[..|r| - 1]);
      assert (q + r)[..|q + r| - 1] == q + r[..|r| - 1];
    }
  }
}
