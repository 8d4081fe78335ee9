/** Leaving: once every process has exited and been heard, the bus leaves its run loop with nobody registered. */
module Leaving {
  import opened Barrier
  import opened LockStep

  /** Process p has sent its Exits among the first n actions. */
  predicate HasExited(acts: seq<Action>, n: nat, p: nat)
    requires n <= |acts|
  {
    SendsExit(p) in acts[..n]
  }

  lemma {:induction false} ExitedNext(acts: seq<Action>, n: nat, p: nat)
    requires n < |acts|
    ensures HasExited(acts, n + 1, p) <==> HasExited(acts, n, p) || acts[n] == SendsExit(p)
  {
    assert acts[..n + 1] == acts[..n] + [acts[n]];
  }

  /** Each slot of a process that has exited is gone from the bus, or its Exit is in flight. */
  ghost predicate Leaves(slots: seq<Slot>, b: Bus, p: nat, tb: seq<ToBus>) {
    forall i | 0 <= i < |slots| && slots[i].ch < |b.reg| ::
      Exit(slots[i].uid, slots[i].ch) in tb || (p in b.left && slots[i].uid !in b.reg[slots[i].ch])
  }

  predicate NobodyRegistered(b: Bus) {
    forall ch | 0 <= ch < |b.reg| :: b.reg[ch] == {}
  }

  /** The loop is left exactly where somebody has left and nobody is registered. */
  predicate LoopOk(b: Bus) {
    && (b.exit ==> NobodyRegistered(b))
    && (b.left != {} && NobodyRegistered(b) ==> b.exit)
  }

  ghost predicate LeftInv(c: Config, s: State, acts: seq<Action>, n: nat)
    requires n <= |acts| && Shape(c, s)
  {
    && LoopOk(s.bus)
    && forall p | 0 <= p < |c.procs| && HasExited(acts, n, p) ::
         s.procs[p].phase.Gone? && Leaves(c.procs[p], s.bus, p, s.toBus[p])
  }

  lemma {:induction false} ExitsSent(slots: seq<Slot>, b: Bus, p: nat, tb: seq<ToBus>)
    ensures Leaves(slots, b, p, tb + ExitAll(slots))
  {
    forall i | 0 <= i < |slots| ensures Exit(slots[i].uid, slots[i].ch) in tb + ExitAll(slots) {
      assert ExitAll(slots)[i] in ExitAll(slots);
    }
  }

  /** The bus takes the first message of p itself. */
  lemma {:induction false} OwnTaken(slots: seq<Slot>, step: real, b: Bus, r: Bus, p: nat, x: Proc, tb: seq<ToBus>,
                                    tp: seq<ToProc>)
    requires ProcInv(slots, step, b, p, x, tb, tp) && Leaves(slots, b, p, tb) && tb != []
    requires match tb[0]
             case Exit(uid, ch) => ch < |b.reg| == |b.rdy| && r == Exits(b, p, uid, ch)
             case _ => r.left == b.left
    ensures Leaves(slots, r, p, tb[1..])
  {
    hide Counts, Turnout, InOrder, Timed, Served;
    assert tb == [tb[0]] + tb[1..];
    assert p in b.left ==> tb[0].Exit?;
  }

  /** The bus takes a message of another process. */
  lemma {:induction false} OtherLeaves(c: Config, s: State, p: nat, q: nat)
    requires c.Valid() && Shape(c, s) && p < |c.procs| && q < |c.procs| && p != q && s.toBus[p] != []
    requires Leaves(c.procs[q], s.bus, q, s.toBus[q])
    ensures Leaves(c.procs[q], BusStep(c, s, p).bus, q, s.toBus[q])
  {
    hide PhaseOk, NetworkReady, ModelsReady;
    assert FromSlot(c.procs[p], s.toBus[p][0]);
  }

  lemma {:induction false} BusLoop(c: Config, s: State, p: nat)
    requires Shape(c, s) && p < |s.procs| && s.toBus[p] != [] && !s.bus.exit && LoopOk(s.bus)
    ensures LoopOk(BusStep(c, s, p).bus)
  {
    hide PhaseOk, NetworkReady, ModelsReady;
    var r, m := BusStep(c, s, p).bus, s.toBus[p][0];
    assert FromSlot(c.procs[p], m);
    if m.Register? {
      assert m.uid in r.reg[m.ch];
    }
  }

  lemma {:induction false} BusProcs(c: Config, s: State, p: nat)
    requires Shape(c, s) && p < |s.procs| && s.toBus[p] != []
    ensures var r := BusStep(c, s, p);
            r.procs == s.procs && |s.procs| == |s.toBus| == |c.procs| && r.toBus == s.toBus[p := s.toBus[p][1..]]
  {
    hide PhaseOk, NetworkReady, ModelsReady;
    assert FromSlot(c.procs[p], s.toBus[p][0]);
  }

  lemma {:induction false} BusLeaves(c: Config, s: State, p: nat, acts: seq<Action>, n: nat)
    requires Inv(c, s) && Shape(c, s) && n < |acts| && acts[n] == BusTakes(p) && Enabled(c, s, acts[n])
    requires LeftInv(c, s, acts, n) && Shape(c, BusStep(c, s, p))
    ensures LeftInv(c, BusStep(c, s, p), acts, n + 1)
  {
    assert c.Valid();
    BusProcs(c, s, p);
    hide Inv, Leaves, LoopOk, Shape, BusStep, HasExited;
    var r := BusStep(c, s, p);
    BusLoop(c, s, p);
    forall q | 0 <= q < |c.procs| && HasExited(acts, n + 1, q)
      ensures r.procs[q].phase.Gone? && Leaves(c.procs[q], r.bus, q, r.toBus[q])
    {
      ExitedNext(acts, n, q);
      if q == p {
        OwnLeaves(c, s, p);
      } else {
        OtherLeaves(c, s, p, q);
      }
    }
  }

  lemma {:induction false} OwnLeaves(c: Config, s: State, p: nat)
    requires Inv(c, s) && Shape(c, s) && p < |c.procs| && s.toBus[p] != [] && Leaves(c.procs[p], s.bus, p, s.toBus[p])
    ensures Leaves(c.procs[p], BusStep(c, s, p).bus, p, s.toBus[p][1..])
  {
    hide Leaves, PhaseOk, NetworkReady, ModelsReady, ProcInv, BusInv;
    assert ProcInv(c.procs[p], c.step, s.bus, p, s.procs[p], s.toBus[p], s.toProc[p]);
    assert FromSlot(c.procs[p], s.toBus[p][0]);
    OwnTaken(c.procs[p], c.step, s.bus, BusStep(c, s, p).bus, p, s.procs[p], s.toBus[p], s.toProc[p]);
  }

  lemma {:induction false} LocalLeaves(c: Config, s: State, acts: seq<Action>, n: nat)
    requires Shape(c, s) && n < |acts| && !acts[n].BusTakes? && Enabled(c, s, acts[n]) && LeftInv(c, s, acts, n)
    requires Shape(c, Step(c, s, acts[n]))
    ensures LeftInv(c, Step(c, s, acts[n]), acts, n + 1)
  {
    hide Leaves, LoopOk, PhaseOk, FromSlot, Taken, TimedOut, SteppedAll, EncodedAll, ExitAll, HasExited;
    var r, p := Step(c, s, acts[n]), acts[n].p;
    forall q | 0 <= q < |c.procs| && HasExited(acts, n + 1, q)
      ensures r.procs[q].phase.Gone? && Leaves(c.procs[q], r.bus, q, r.toBus[q])
    {
      ExitedNext(acts, n, q);
      if q == p && acts[n].SendsExit? {
        ExitsSent(c.procs[p], s.bus, p, s.toBus[p]);
      }
    }
  }

  lemma {:induction false} TraceLeaves(c: Config, acts: seq<Action>, states: seq<State>, n: nat)
    requires Trace(c, acts, states) && n <= |acts|
    ensures Inv(c, states[n]) && Shape(c, states[n]) && LeftInv(c, states[n], acts, n)
  {
    hide Inv, LeftInv, Step, Enabled;
    TraceKeeps(c, acts, states, n);
    InvShape(c, states[n]);
    if n == 0 {
      StartsIn(c, acts);
    } else {
      TraceLeaves(c, acts, states, n - 1);
      StepLeaves(c, states[n - 1], acts, n - 1);
    }
  }

  lemma {:induction false} StartsIn(c: Config, acts: seq<Action>)
    requires c.Valid() && Shape(c, Init(c))
    ensures LeftInv(c, Init(c), acts, 0)
  {
    hide Shape;
  }

  lemma {:induction false} StepLeaves(c: Config, s: State, acts: seq<Action>, n: nat)
    requires Inv(c, s) && Shape(c, s) && n < |acts| && Enabled(c, s, acts[n]) && LeftInv(c, s, acts, n)
    requires Shape(c, Step(c, s, acts[n]))
    ensures LeftInv(c, Step(c, s, acts[n]), acts, n + 1)
  {
    hide Inv, LeftInv, BusStep, Shape;
    if acts[n].BusTakes? {
      BusLeaves(c, s, acts[n].p, acts, n);
    } else {
      LocalLeaves(c, s, acts, n);
    }
  }

  /** Over any run: once all processes have exited and the bus has no message left, it has left its loop. */
  lemma {:induction false} LoopLeft(c: Config, acts: seq<Action>, states: seq<State>, n: nat)
    requires Trace(c, acts, states) && n <= |acts| && n < |states|
    requires forall p | 0 <= p < |c.procs| :: SendsExit(p) in acts[..n]
    requires states[n].bus.exit || forall p | 0 <= p < |states[n].toBus| :: states[n].toBus[p] == []
    ensures states[n].bus.exit && forall ch | 0 <= ch < |states[n].bus.reg| :: states[n].bus.reg[ch] == {}
  {
    var s := states[n];
    hide *;
    TraceLeaves(c, acts, states, n);
    AllLeft(c, s, acts, n);
  }

  lemma {:induction false} AllLeft(c: Config, s: State, acts: seq<Action>, n: nat)
    requires Inv(c, s) && Shape(c, s) && n <= |acts| && LeftInv(c, s, acts, n)
    requires forall p | 0 <= p < |c.procs| :: SendsExit(p) in acts[..n]
    requires s.bus.exit || forall p | 0 <= p < |s.toBus| :: s.toBus[p] == []
    ensures s.bus.exit && forall ch | 0 <= ch < |s.bus.reg| :: s.bus.reg[ch] == {}
  {
    hide ProcInv, PhaseOk, FromSlot;
    if forall p | 0 <= p < |s.toBus| :: s.toBus[p] == [] {
      forall p | 0 <= p < |c.procs| ensures p in s.bus.left && Leaves(c.procs[p], s.bus, p, []) {
        assert HasExited(acts, n, p);
        assert c.procs[p][0].ch < |s.bus.reg|;
      }
      assert 0 in s.bus.left;
      NoneRegistered(c, s.bus);
    }
  }

  lemma {:induction false} NoneRegistered(c: Config, b: Bus)
    requires BusCore(c, b) && (forall p, i | 0 <= p < |c.procs| && 0 <= i < |c.procs[p]| :: c.procs[p][i].ch < |b.reg|)
    requires forall p | 0 <= p < |c.procs| :: Leaves(c.procs[p], b, p, [])
    ensures NobodyRegistered(b)
  {
    forall ch | 0 <= ch < |b.reg| ensures b.reg[ch] == {} {
      forall u | u in c.Members(ch) ensures u !in b.reg[ch] {
        var p, i :| 0 <= p < |c.procs| && 0 <= i < |c.procs[p]| && c.procs[p][i].ch == ch && c.procs[p][i].uid == u;
        assert Leaves(c.procs[p], b, p, []);
      }
    }
  }

  // ---- Who is ready is registered ----

  predicate ReadyRegistered(b: Bus) {
    |b.reg| == |b.rdy| && forall ch | 0 <= ch < |b.reg| :: b.rdy[ch] <= b.reg[ch]
  }

  /** A process whose Ready is taken is registered everywhere. */
  lemma {:induction false} ReadyIsRegistered(slots: seq<Slot>, step: real, b: Bus, p: nat, x: Proc, tb: seq<ToBus>,
                                             tp: seq<ToProc>)
    requires ProcInv(slots, step, b, p, x, tb, tp) && tb != [] && tb[0].Ready?
    ensures forall i | 0 <= i < |slots| :: slots[i].ch < |b.reg| && slots[i].uid in b.reg[slots[i].ch]
  {
    ReadiesFirst(tb);
    hide Turnout, Timed, Served;
    assert x.readied > 0 && x.asked == |slots|;
    forall i | 0 <= i < |slots| ensures !Asked(slots[i], tb) {
      assert forall j | 0 < j < |tb| :: Rank(tb[0]) <= Rank(tb[j]);
    }
  }

  lemma {:induction false} StepReady(c: Config, s: State, a: Action)
    requires Inv(c, s) && Shape(c, s) && Enabled(c, s, a) && ReadyRegistered(s.bus)
    ensures ReadyRegistered(Step(c, s, a).bus)
  {
    hide Inv, PhaseOk, NetworkReady, ModelsReady, Taken, TimedOut, SteppedAll, EncodedAll, ReadyUids;
    if a.BusTakes? {
      assert FromSlot(c.procs[a.p], s.toBus[a.p][0]);
      if s.toBus[a.p][0].Ready? {
        ReadyUidsIn(c, s, a.p);
      }
    }
  }

  lemma {:induction false} ReadyUidsIn(c: Config, s: State, p: nat)
    requires Inv(c, s) && p < |s.procs| && s.toBus[p] != [] && s.toBus[p][0].Ready?
    ensures forall ch: nat | ch < |s.bus.reg| :: ReadyUids(s.toBus[p][0].vectors, ch) <= s.bus.reg[ch]
  {
    var m := s.toBus[p][0];
    assert FromSlot(c.procs[p], m);
    assert ProcInv(c.procs[p], c.step, s.bus, p, s.procs[p], s.toBus[p], s.toProc[p]);
    hide Inv, Shape, ProcInv;
    ReadyIsRegistered(c.procs[p], c.step, s.bus, p, s.procs[p], s.toBus[p], s.toProc[p]);
    forall ch: nat, u | ch < |s.bus.reg| && u in ReadyUids(m.vectors, ch) ensures u in s.bus.reg[ch] {
      var i :| 0 <= i < |m.vectors| && m.vectors[i].ch == ch && m.vectors[i].uid == u;
      assert c.procs[p][i].uid == u && c.procs[p][i].ch == ch;
    }
  }

  /** Over any run, the UIDs that are ready on a channel are registered on it: an Exit takes them from both. */
  lemma {:induction false} TraceReady(c: Config, acts: seq<Action>, states: seq<State>, n: nat)
    requires Trace(c, acts, states) && n <= |acts|
    ensures ReadyRegistered(states[n].bus)
  {
    hide Inv, Step, Enabled, ReadyRegistered;
    if n == 0 {
      NobodyReady(c);
    } else {
      TraceReady(c, acts, states, n - 1);
      TraceKeeps(c, acts, states, n - 1);
      StepReady(c, states[n - 1], acts[n - 1]);
    }
  }

  lemma {:induction false} NobodyReady(c: Config)
    requires c.Valid()
    ensures ReadyRegistered(Init(c).bus)
  {}

  // ---- Retries ----

  /** A slot is asked for at most five times. */
  predicate TriesOk(s: State) {
    forall p | 0 <= p < |s.procs| && s.procs[p].phase.Connecting? :: 1 <= s.procs[p].phase.tries <= 5
  }

  lemma {:induction false} TraceTries(c: Config, acts: seq<Action>, states: seq<State>, n: nat)
    requires Trace(c, acts, states) && n <= |acts|
    ensures Shape(c, states[n]) && TriesOk(states[n])
  {
    TraceKeeps(c, acts, states, n);
    InvShape(c, states[n]);
    hide Inv, Enabled, Shape, TriesOk;
    if n == 0 {
      InitTries(c);
    } else {
      TraceTries(c, acts, states, n - 1);
      StepTries(c, states[n - 1], acts[n - 1]);
    }
  }

  lemma {:induction false} InitTries(c: Config)
    requires c.Valid()
    ensures TriesOk(Init(c))
  {}

  lemma {:induction false} StepTries(c: Config, s: State, a: Action)
    requires Shape(c, s) && Enabled(c, s, a) && TriesOk(s)
    ensures TriesOk(Step(c, s, a))
  {
    hide FromSlot, SteppedAll, EncodedAll, NotifiedAll, Readied, Resolved, Registers;
    assert PhaseOk(c.procs[a.p], s.procs[a.p]);
  }

  /** Over any run: a timeout asks again for the same slot up to the fifth time, and then goes on without it. */
  lemma {:induction false} GivesUp(c: Config, acts: seq<Action>, states: seq<State>, n: nat, p: nat)
    requires Trace(c, acts, states) && n < |acts| && n + 1 < |states| && acts[n] == TimesOut(p) && p < |c.procs|
    requires |states[n].procs| == |states[n + 1].procs| == |c.procs| && states[n].procs[p].phase.Connecting?
    ensures var x, y := states[n].procs[p], states[n + 1].procs[p];
            var i, tries := x.phase.i, x.phase.tries;
            && 1 <= tries <= 5 && y.token == x.token + 1
            && y.phase == if tries < 5 then Connecting(i, tries + 1)
                          else if i + 1 < |c.procs[p]| then Connecting(i + 1, 1) else Indexing(0)
  {
    TraceTries(c, acts, states, n);
    var s := states[n];
    assert states[n + 1] == Step(c, s, TimesOut(p)) && PhaseOk(c.procs[p], s.procs[p]);
    hide Trace, Shape, FromSlot;
  }
}
