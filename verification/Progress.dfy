/** Progress: without exits, a cycle is completed within a number of steps that the state gives. */
module Progress {
  import opened Barrier
  import opened LockStep

  // ---- The work left in a cycle ----

  /** A message to the bus is taken, and may be answered to every process. */
  function BusWeight(n: nat): nat {
    n + 1
  }

  /** A Start lets a process send one more Ready; anything else is only taken. */
  function MessageWork(n: nat, m: ToProc): nat {
    if m.Start? then 2 + SendWork(n) else 1
  }

  /** Sending a message is a step, and leaves it to the bus. */
  function SendWork(n: nat): nat {
    1 + BusWeight(n)
  }

  function QueueWork(n: nat, q: seq<ToProc>): nat {
    if q == [] then 0 else QueueWork(n, q[..|q| - 1]) + MessageWork(n, q[|q| - 1])
  }

  /** The messages that a process has still to send in this cycle, timeouts included. */
  function ToSend(slots: nat, phase: Phase): nat {
    match phase
    case Connecting(i, tries) =>
      (if tries < RETRIES then RETRIES - tries else 0) + (if i < slots then slots - 1 - i else 0) * RETRIES + slots + 1
    case Indexing(i) => (if i < slots then slots - 1 - i else 0) + 1
    case Running => 1
    case _ => 0
  }

  function ProcWork(n: nat, slots: nat, phase: Phase, tb: nat, tp: seq<ToProc>): nat {
    ToSend(slots, phase) * SendWork(n) + tb * BusWeight(n) + QueueWork(n, tp)
  }

  /** The work of the first k processes. */
  function WorkOf(c: Config, s: State, k: nat): nat
    requires k <= |c.procs| == |s.procs| == |s.toBus| == |s.toProc|
  {
    if k == 0 then 0 else
    WorkOf(c, s, k - 1)
    + ProcWork(|c.procs|, |c.procs[k - 1]|, s.procs[k - 1].phase, |s.toBus[k - 1]|, s.toProc[k - 1])
  }

  function Work(c: Config, s: State): nat
    requires |c.procs| == |s.procs| == |s.toBus| == |s.toProc|
  {
    WorkOf(c, s, |c.procs|)
  }

  predicate Exits(a: Action) {
    a.SendsExit? || a.Crashes?
  }

  // ---- Queues ----

  lemma {:induction false} QueueFirst(n: nat, q: seq<ToProc>)
    requires q != []
    ensures QueueWork(n, q) == MessageWork(n, q[0]) + QueueWork(n, q[1..])
  {
    if |q| > 1 {
      QueueFirst(n, q[..|q| - 1]);
      assert q[..|q| - 1][1..] == q[1..][..|q| - 2];
    }
  }

  lemma {:induction false} QueueAppend(n: nat, q: seq<ToProc>, m: ToProc)
    ensures QueueWork(n, q + [m]) == QueueWork(n, q) + MessageWork(n, m)
  {
    assert (q + [m])[..|q|] == q;
  }

  // ---- Steps of a process ----

  /** Only process p changes: its work decides. */
  lemma {:induction false} OneChanges(c: Config, s: State, r: State, p: nat, k: nat)
    requires k <= |c.procs| == |s.procs| == |s.toBus| == |s.toProc| && p < |c.procs|
    requires |r.procs| == |r.toBus| == |r.toProc| == |c.procs|
    requires forall q | 0 <= q < |c.procs| && q != p ::
               r.procs[q].phase == s.procs[q].phase && |r.toBus[q]| == |s.toBus[q]| && r.toProc[q] == s.toProc[q]
    ensures var n, slots := |c.procs|, |c.procs[p]|;
            WorkOf(c, r, k) + (if p < k then ProcWork(n, slots, s.procs[p].phase, |s.toBus[p]|, s.toProc[p]) else 0)
            == WorkOf(c, s, k) + (if p < k then ProcWork(n, slots, r.procs[p].phase, |r.toBus[p]|, r.toProc[p]) else 0)
  {
    hide ProcWork;
    if k > 0 {
      OneChanges(c, s, r, p, k - 1);
    }
  }

  /** A send moves one unit from the messages to send to the queue, and saves the step. */
  lemma {:induction false} Sent(n: nat, slots: nat, was: Phase, now: Phase, tb: nat, tp: seq<ToProc>)
    requires ToSend(slots, now) + 1 <= ToSend(slots, was)
    ensures ProcWork(n, slots, now, tb + 1, tp) < ProcWork(n, slots, was, tb, tp)
  {
    hide ToSend, QueueWork, BusWeight;
    Times(ToSend(slots, now), ToSend(slots, was), SendWork(n));
    Times(tb, tb + 1, BusWeight(n));
  }

  lemma {:induction false} Times(a: nat, b: nat, w: nat)
    requires a + 1 <= b
    ensures a * w + w <= b * w && (b == a + 1 ==> a * w + w == b * w)
  {
    assert b * w == (b - 1) * w + w;
    if b > a + 1 {
      Times(a, b - 1, w);
    }
  }

  lemma {:induction false} ConnectedSends(slots: seq<Slot>, x: Proc, i: nat, tries: nat)
    requires i < |slots| && x.phase == Connecting(i, tries)
    ensures var t := Connected(slots, x, i);
            ToSend(|slots|, t.proc.phase) + 1 <= ToSend(|slots|, x.phase) && |t.sent| == 1
  {
    if i + 1 < |slots| {
      assert (|slots| - 1 - i) * RETRIES == (|slots| - 2 - i) * RETRIES + RETRIES;
    }
  }

  lemma {:induction false} TimeoutWork(n: nat, slots: seq<Slot>, x: Proc, tb: nat, tp: seq<ToProc>)
    requires x.phase.Connecting? && x.phase.i < |slots|
    ensures var t := TimedOut(slots, x);
            ProcWork(n, |slots|, t.proc.phase, tb + |t.sent|, tp) < ProcWork(n, |slots|, x.phase, tb, tp)
  {
    hide ProcWork;
    var t := TimedOut(slots, x);
    if x.phase.tries >= RETRIES {
      ConnectedSends(slots, x, x.phase.i, x.phase.tries);
    }
    Sent(n, |slots|, x.phase, t.proc.phase, tb, tp);
  }

  lemma {:induction false} TakenWork(n: nat, slots: seq<Slot>, x: Proc, tb: nat, tp: seq<ToProc>)
    requires Receiving(x) && PhaseOk(slots, x) && |x.cells| == |slots| && tp != []
    ensures var t := Taken(slots, x, tp[0]);
            ProcWork(n, |slots|, t.proc.phase, tb + |t.sent|, tp[1..]) < ProcWork(n, |slots|, x.phase, tb, tp)
  {
    var t := Taken(slots, x, tp[0]);
    QueueFirst(n, tp);
    hide QueueWork, NotifiedAll;
    if x.phase.Connecting? && t.sent != [] {
      ConnectedSends(slots, x, x.phase.i, x.phase.tries);
    }
    if t.sent != [] {
      Sent(n, |slots|, x.phase, t.proc.phase, tb, tp[1..]);
    }
  }

  lemma {:induction false} ReadyWork(n: nat, slots: nat, tb: nat, tp: seq<ToProc>)
    ensures ProcWork(n, slots, Waiting, tb + 1, tp) < ProcWork(n, slots, Running, tb, tp)
  {
    Sent(n, slots, Running, Waiting, tb, tp);
  }

  lemma {:induction false} ConnectingSlot(slots: seq<Slot>, x: Proc)
    requires PhaseOk(slots, x) && x.phase.Connecting?
    ensures x.phase.i < |slots|
  {}

  lemma {:induction false} LocalWork(c: Config, s: State, a: Action)
    requires Shape(c, s) && Enabled(c, s, a) && !a.BusTakes? && !Exits(a) && Shape(c, Step(c, s, a))
    ensures Work(c, Step(c, s, a)) < Work(c, s)
  {
    hide ProcWork, Taken, TimedOut, SteppedAll, EncodedAll, PhaseOk, FromSlot, NotifiedAll;
    var p, n, r := a.p, |c.procs|, Step(c, s, a);
    var slots, x, tb, tp := c.procs[p], s.procs[p], s.toBus[p], s.toProc[p];
    assert PhaseOk(slots, x);
    match a {
      case ProcTakes(_) => TakenWork(n, slots, x, |tb|, tp);
      case TimesOut(_) =>
        ConnectingSlot(slots, x);
        TimeoutWork(n, slots, x, |tb|, tp);
      case SendsReady(_, fins, ops) => ReadyWork(n, |slots|, |tb|, tp);
    }
    OneChanges(c, s, r, p, n);
  }

  // ---- Steps of the bus ----

  /** The bus takes a message of p and answers to some of the processes: at most one step of work for each. */
  lemma {:induction false} BusWorkUpTo(c: Config, s: State, r: State, p: nat, m: ToProc, k: nat)
    requires k <= |c.procs| == |s.procs| == |s.toBus| == |s.toProc| && p < |c.procs| && s.toBus[p] != [] && !m.Start?
    requires r.procs == s.procs && |r.toBus| == |r.toProc| == |c.procs| && r.toBus == s.toBus[p := s.toBus[p][1..]]
    requires forall q | 0 <= q < |c.procs| :: r.toProc[q] == s.toProc[q] || r.toProc[q] == s.toProc[q] + [m]
    ensures WorkOf(c, r, k) + (if p < k then BusWeight(|c.procs|) else 0) <= WorkOf(c, s, k) + k
  {
    hide ProcWork, BusWeight, QueueWork;
    if k > 0 {
      BusWorkUpTo(c, s, r, p, m, k - 1);
      var q := k - 1;
      Answered(|c.procs|, |c.procs[q]|, s.procs[q].phase, |s.toBus[q]|, s.toProc[q], m);
    }
  }

  lemma {:induction false} Answered(n: nat, slots: nat, phase: Phase, tb: nat, tp: seq<ToProc>, m: ToProc)
    requires !m.Start?
    ensures ProcWork(n, slots, phase, tb, tp + [m]) == ProcWork(n, slots, phase, tb, tp) + 1
    ensures tb > 0 ==> ProcWork(n, slots, phase, tb, tp) == ProcWork(n, slots, phase, tb - 1, tp) + BusWeight(n)
    ensures tb > 0 ==>
              ProcWork(n, slots, phase, tb, tp) + 1 == ProcWork(n, slots, phase, tb - 1, tp + [m]) + BusWeight(n)
  {
    QueueAppend(n, tp, m);
    hide ToSend, QueueWork, BusWeight, SendWork;
    if tb > 0 {
      Times(tb - 1, tb, BusWeight(n));
    }
  }

  lemma {:induction false} BusWork(c: Config, s: State, p: nat)
    requires Shape(c, s) && p < |s.procs| && s.toBus[p] != [] && Shape(c, BusStep(c, s, p))
    requires BusStep(c, s, p).bus.rounds == s.bus.rounds
    ensures Work(c, BusStep(c, s, p)) < Work(c, s)
  {
    hide FromSlot, PhaseOk, NetworkReady, ModelsReady;
    var r, m := BusStep(c, s, p), s.toBus[p][0];
    var ack := if m.Register? then RegisterAck(m.uid, m.token) else if m.Index? then IndexAck(m.uid, m.token)
               else RegisterAck(0, 0);
    assert FromSlot(c.procs[p], m);
    BusWorkUpTo(c, s, r, p, ack, |c.procs|);
  }

  // ---- Cycles ----

  /** Every step but an exit or a crash uses up work, or completes the cycle. */
  lemma {:induction false} StepWorks(c: Config, s: State, a: Action)
    requires Inv(c, s) && Enabled(c, s, a) && !Exits(a)
    ensures Shape(c, s) && Shape(c, Step(c, s, a))
    ensures Step(c, s, a).bus.rounds == s.bus.rounds ==> Work(c, Step(c, s, a)) < Work(c, s)
  {
    StepKeeps(c, s, a);
    InvShape(c, s);
    InvShape(c, Step(c, s, a));
    hide Inv, Work, Shape;
    if a.BusTakes? {
      if Step(c, s, a).bus.rounds == s.bus.rounds {
        BusWork(c, s, a.p);
      }
    } else {
      LocalWork(c, s, a);
    }
  }

  lemma {:induction false} RoundsGrow(c: Config, acts: seq<Action>, states: seq<State>, m: nat, n: nat)
    requires Trace(c, acts, states) && m <= n <= |acts|
    ensures |states[m].bus.rounds| <= |states[n].bus.rounds|
    ensures |states[m].bus.rounds| == |states[n].bus.rounds| ==> states[m].bus.rounds == states[n].bus.rounds
  {
    hide Inv, Step, Enabled, Full;
    if m < n {
      RoundsGrow(c, acts, states, m, n - 1);
      TraceKeeps(c, acts, states, n - 1);
      RoundClosed(c, states[n - 1], acts[n - 1]);
    }
  }

  lemma {:induction false} WorkUsed(c: Config, acts: seq<Action>, states: seq<State>, m: nat, n: nat)
    requires Trace(c, acts, states) && m <= n <= |acts| && forall i | m <= i < n :: !Exits(acts[i])
    requires |states[n].bus.rounds| == |states[m].bus.rounds|
    ensures Shape(c, states[m]) && Shape(c, states[n]) && n - m + Work(c, states[n]) <= Work(c, states[m])
  {
    hide Inv, Step, Enabled, Work, Shape, Exits;
    TraceKeeps(c, acts, states, m);
    InvShape(c, states[m]);
    if m < n {
      RoundsGrow(c, acts, states, m, n - 1);
      RoundsGrow(c, acts, states, n - 1, n);
      WorkUsed(c, acts, states, m, n - 1);
      TraceKeeps(c, acts, states, n - 1);
      StepWorks(c, states[n - 1], acts[n - 1]);
    }
  }

  /** Bounded progress: without exits, more steps than the work left complete the cycle, timeouts or not. */
  lemma {:induction false} CycleWithin(c: Config, acts: seq<Action>, states: seq<State>, m: nat, n: nat)
    requires Trace(c, acts, states) && m <= n <= |acts| && forall i | m <= i < n :: !Exits(acts[i])
    ensures Shape(c, states[m])
    ensures n - m > Work(c, states[m]) ==> |states[n].bus.rounds| > |states[m].bus.rounds|
  {
    hide Inv, Step, Enabled, Work, Exits;
    RoundsGrow(c, acts, states, m, n);
    TraceKeeps(c, acts, states, m);
    InvShape(c, states[m]);
    if |states[n].bus.rounds| == |states[m].bus.rounds| {
      WorkUsed(c, acts, states, m, n);
    }
  }

  predicate NobodyLeft(s: State) {
    forall p | 0 <= p < |s.procs| :: !s.procs[p].phase.Gone?
  }

  lemma {:induction false} NobodyLeaves(c: Config, s: State, a: Action)
    requires Shape(c, s) && Enabled(c, s, a) && NobodyLeft(s) && !Exits(a)
    ensures NobodyLeft(Step(c, s, a))
  {
    hide FromSlot, NotifiedAll, SteppedAll, EncodedAll, Readied, Resolved, Registers;
    if !a.BusTakes? {
      assert PhaseOk(c.procs[a.p], s.procs[a.p]);
    }
  }

  lemma {:induction false} OneMore(c: Config, acts: seq<Action>, states: seq<State>, a: Action)
    requires Trace(c, acts, states) && Shape(c, states[|acts|]) && Enabled(c, states[|acts|], a)
    ensures Trace(c, acts + [a], states + [Step(c, states[|acts|], a)])
  {
    hide Shape, Enabled, Step, Config.Valid;
    var as', ss := acts + [a], states + [Step(c, states[|acts|], a)];
    forall i | 0 <= i < |as'|
      ensures Shape(c, ss[i]) && Enabled(c, ss[i], as'[i]) && ss[i + 1] == Step(c, ss[i], as'[i])
    {
      assert ss[i] == states[i];
    }
  }

  /** While nobody has left, every run can be continued to the end of the cycle within that bound. */
  lemma {:induction false} CycleCompletes(c: Config, acts: seq<Action>, states: seq<State>)
      returns (later: seq<Action>, passed: seq<State>)
    requires Trace(c, acts, states) && Shape(c, states[|acts|]) && NobodyLeft(states[|acts|])
    ensures Trace(c, later, passed) && acts <= later && states <= passed
    ensures |later| - |acts| <= Work(c, states[|acts|]) + 1
    ensures |passed[|later|].bus.rounds| == |states[|acts|].bus.rounds| + 1
    ensures forall i | |acts| <= i < |later| :: later[i].BusTakes? || later[i].ProcTakes? || later[i].SendsReady?
    decreases Work(c, states[|acts|])
  {
    hide Inv, Step, Enabled, Work, Shape, Full, NobodyLeft;
    var s := states[|acts|];
    var a := CanStep(c, acts, states);
    TraceKeeps(c, acts, states, |acts|);
    StepWorks(c, s, a);
    RoundClosed(c, s, a);
    NobodyLeaves(c, s, a);
    OneMore(c, acts, states, a);
    later, passed := acts + [a], states + [Step(c, s, a)];
    if Step(c, s, a).bus.rounds == s.bus.rounds {
      later, passed := CycleCompletes(c, later, passed);
    }
  }

  lemma {:induction false} CanStep(c: Config, acts: seq<Action>, states: seq<State>) returns (a: Action)
    requires Trace(c, acts, states) && Shape(c, states[|acts|]) && NobodyLeft(states[|acts|])
    ensures Enabled(c, states[|acts|], a) && (a.BusTakes? || a.ProcTakes? || a.SendsReady?)
  {
    var s := states[|acts|];
    hide Shape, Step, Trace;
    NeverStalls(c, acts, states, |acts|);
    a :| Enabled(c, s, a) && (a.BusTakes? || a.ProcTakes? || a.SendsReady?);
  }
}
