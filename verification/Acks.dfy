/** Acknowledgements: an ACK is taken for the request it answers, after the bus has handled that request. */
module Acks {
  import opened Barrier
  import opened BusData
  import opened LockStep
  import opened Replication

  /** A Register or an Index, which are answered. */
  predicate Asks(m: ToBus) {
    m.Register? || m.Index?
  }

  /** An ACK for one of the models. */
  predicate AckFor(slots: seq<Slot>, m: ToProc) {
    !m.Start? && Owns(slots, m.uid)
  }

  /** The request that the process waits for. */
  function Request(slots: seq<Slot>, x: Proc): ToBus
    requires PhaseOk(slots, x) && (x.phase.Connecting? || x.phase.Indexing?)
  {
    match x.phase
    case Connecting(i, _) => Register(slots[i].uid, slots[i].ch, x.token)
    case Indexing(i) => Index(slots[i].uid, slots[i].ch, x.token, slots[i].signals)
  }

  /** What the bus has once it has handled a request. */
  predicate Handled(b: Bus, m: ToBus) {
    match m
    case Register(uid, ch, _) => ch < |b.reg| && uid in b.reg[ch]
    case Index(_, ch, _, signals) => forall x | x in signals :: Key(ch, x) in b.sv
    case _ => true
  }

  function AnswerTo(m: ToBus): ToProc
    requires Asks(m)
  {
    if m.Register? then RegisterAck(m.uid, m.token) else IndexAck(m.uid, m.token)
  }

  /** No token is newer than the process's; the newest is that of the request it waits for, handled once answered. */
  ghost predicate Tokens(slots: seq<Slot>, b: Bus, x: Proc, tb: seq<ToBus>, tp: seq<ToProc>)
    requires PhaseOk(slots, x)
  {
    && (forall j | 0 <= j < |tb| && Asks(tb[j]) :: tb[j].token <= x.token)
    && (forall j | 0 <= j < |tp| && AckFor(slots, tp[j]) :: tp[j].token <= x.token)
    && (x.phase.Connecting? || x.phase.Indexing? ==>
          && (forall j | 0 <= j < |tb| && Asks(tb[j]) && tb[j].token == x.token :: tb[j] == Request(slots, x))
          && (forall j | 0 <= j < |tp| && AckFor(slots, tp[j]) && tp[j].token == x.token ::
                tp[j] == AnswerTo(Request(slots, x)) && Handled(b, Request(slots, x))))
  }

  ghost predicate AckInv(c: Config, s: State)
    requires Shape(c, s)
  {
    forall p | 0 <= p < |s.procs| :: Tokens(c.procs[p], s.bus, s.procs[p], s.toBus[p], s.toProc[p])
  }

  // ---- Processes ----

  /** A message is taken, and a new request may be sent with the next token. */
  lemma {:induction false} AskTokens(slots: seq<Slot>, b: Bus, x: Proc, tb: seq<ToBus>, tp: seq<ToProc>, y: Proc,
                                     m: ToBus)
    requires PhaseOk(slots, x) && Tokens(slots, b, x, tb, tp) && PhaseOk(slots, y) && y.token == x.token + 1
    requires (y.phase.Connecting? || y.phase.Indexing?) && m == Request(slots, y)
    ensures Tokens(slots, b, y, tb + [m], tp)
  {}

  lemma {:induction false} PopTokens(slots: seq<Slot>, b: Bus, x: Proc, tb: seq<ToBus>, tp: seq<ToProc>)
    requires PhaseOk(slots, x) && Tokens(slots, b, x, tb, tp) && tp != []
    ensures Tokens(slots, b, x, tb, tp[1..])
  {}

  /** Where a process does not wait for an ACK, only the newest token matters. */
  lemma {:induction false} OtherTokens(slots: seq<Slot>, b: Bus, x: Proc, tb: seq<ToBus>, tp: seq<ToProc>, y: Proc,
                                       sent: seq<ToBus>)
    requires PhaseOk(slots, x) && Tokens(slots, b, x, tb, tp) && PhaseOk(slots, y) && y.token == x.token
    requires !y.phase.Connecting? && !y.phase.Indexing? && forall j | 0 <= j < |sent| :: !Asks(sent[j])
    ensures Tokens(slots, b, y, tb + sent, tp)
  {}

  lemma {:induction false} ConnectedAsks(slots: seq<Slot>, x: Proc, i: nat)
    requires i < |slots| && x.asked == i + 1 && x.started == x.readied == 0
    ensures var t := Connected(slots, x, i);
            && PhaseOk(slots, t.proc) && t.proc.token == x.token + 1
            && (t.proc.phase.Connecting? || t.proc.phase.Indexing?) && t.sent == [Request(slots, t.proc)]
  {}

  lemma {:induction false} TakenTokens(slots: seq<Slot>, b: Bus, x: Proc, tb: seq<ToBus>, tp: seq<ToProc>)
    requires PhaseOk(slots, x) && Tokens(slots, b, x, tb, tp) && tp != [] && Receiving(x) && |x.cells| == |slots|
    ensures var t := Taken(slots, x, tp[0]); PhaseOk(slots, t.proc) && Tokens(slots, b, t.proc, tb + t.sent, tp[1..])
  {
    var m, t := tp[0], Taken(slots, x, tp[0]);
    PopTokens(slots, b, x, tb, tp);
    hide Tokens, NotifiedAll;
    assert tb + [] == tb;
    if t != Turn(x, []) {
      if t.proc.phase.Running? {
        OtherTokens(slots, b, x, tb, tp[1..], t.proc, []);
      } else {
        if x.phase.Connecting? {
          ConnectedAsks(slots, x, x.phase.i);
        }
        AskTokens(slots, b, x, tb, tp[1..], t.proc, t.sent[0]);
      }
    }
  }

  lemma {:induction false} TimedOutTokens(slots: seq<Slot>, b: Bus, x: Proc, tb: seq<ToBus>, tp: seq<ToProc>)
    requires PhaseOk(slots, x) && Tokens(slots, b, x, tb, tp) && x.phase.Connecting?
    ensures var t := TimedOut(slots, x); PhaseOk(slots, t.proc) && Tokens(slots, b, t.proc, tb + t.sent, tp)
  {
    hide Tokens;
    ConnectedAsks(slots, x, x.phase.i);
    AskTokens(slots, b, x, tb, tp, TimedOut(slots, x).proc, TimedOut(slots, x).sent[0]);
  }

  lemma {:induction false} LocalTokens(c: Config, s: State, a: Action)
    requires Shape(c, s) && Enabled(c, s, a) && !a.BusTakes? && AckInv(c, s) && Shape(c, Step(c, s, a))
    ensures AckInv(c, Step(c, s, a))
  {
    hide Tokens, FromSlot, Taken, TimedOut, SteppedAll, EncodedAll, PhaseOk;
    var p := a.p;
    var slots, x, tb, tp := c.procs[p], s.procs[p], s.toBus[p], s.toProc[p];
    assert PhaseOk(slots, x) && PhaseOk(slots, Step(c, s, a).procs[p]);
    assert Tokens(slots, s.bus, x, tb, tp);
    match a
    case ProcTakes(_) => TakenTokens(slots, s.bus, x, tb, tp);
    case TimesOut(_) => TimedOutTokens(slots, s.bus, x, tb, tp);
    case SendsReady(_, fins, ops) =>
      OtherTokens(slots, s.bus, x, tb, tp, SentReady(slots, x, fins, ops).proc, SentReady(slots, x, fins, ops).sent);
    case SendsExit(_) => OtherTokens(slots, s.bus, x, tb, tp, x.(phase := Gone), ExitAll(slots));
    case Crashes(_) => OtherTokens(slots, s.bus, x, tb, tp, x.(phase := Gone), []);
  }

  // ---- The bus ----

  /** The first request of p is handled and answered to some. What others have asked for stays handled. */
  lemma {:induction false} AnsweredTokens(slots: seq<Slot>, b: Bus, r: Bus, x: Proc, tb: seq<ToBus>, tp: seq<ToProc>,
                                          m: ToBus)
    requires PhaseOk(slots, x) && Tokens(slots, b, x, tb, tp) && tb != [] && tb[0] == m && Asks(m)
    requires Handled(r, m)
    requires forall n: ToBus | Asks(n) && Handled(b, n) :: Handled(r, n)
    ensures Tokens(slots, r, x, tb[1..], tp) && Tokens(slots, r, x, tb[1..], tp + [AnswerTo(m)])
  {
    hide Handled;
  }

  lemma {:induction false} ForeignTokens(slots: seq<Slot>, b: Bus, r: Bus, x: Proc, tb: seq<ToBus>, tp: seq<ToProc>,
                                         rest: seq<ToBus>, ack: ToProc)
    requires PhaseOk(slots, x) && Tokens(slots, b, x, tb, tp) && !AckFor(slots, ack)
    requires rest == tb || (tb != [] && rest == tb[1..])
    requires x.phase.Connecting? || x.phase.Indexing? ==>
               (Handled(b, Request(slots, x)) ==> Handled(r, Request(slots, x)))
    ensures Tokens(slots, r, x, rest, tp) && Tokens(slots, r, x, rest, tp + [ack])
  {
    hide Handled;
  }

  lemma {:induction false} RequestHandled(c: Config, s: State, p: nat)
    requires Shape(c, s) && p < |s.procs| && s.toBus[p] != [] && Asks(s.toBus[p][0])
    ensures var r := BusStep(c, s, p).bus;
            && Handled(r, s.toBus[p][0])
            && forall n: ToBus | Asks(n) && Handled(s.bus, n) :: Handled(r, n)
  {
    hide PhaseOk;
    var m := s.toBus[p][0];
    assert FromSlot(c.procs[p], m);
    hide FromSlot;
    if m.Index? {
      forall x | x in m.signals ensures Key(m.ch, x) in Indexed(s.bus.sv, m.ch, m.signals) {
        assert Key(m.ch, x) in set y | y in m.signals :: Key(m.ch, y);
      }
    }
  }

  lemma {:induction false} NotOwned(c: Config, p: nat, q: nat, m: ToBus)
    requires c.Valid() && p < |c.procs| && q < |c.procs| && p != q && FromSlot(c.procs[p], m) && !m.Ready?
    ensures !Owns(c.procs[q], m.uid)
  {}

  lemma {:induction false} AskedTaken(c: Config, s: State, p: nat)
    requires c.Valid() && Shape(c, s) && AckInv(c, s) && p < |s.procs| && s.toBus[p] != [] && Asks(s.toBus[p][0])
    requires Shape(c, BusStep(c, s, p))
    ensures AckInv(c, BusStep(c, s, p))
  {
    var r, m := BusStep(c, s, p), s.toBus[p][0];
    RequestHandled(c, s, p);
    assert FromSlot(c.procs[p], m);
    hide Tokens, FromSlot, Handled, Indexed;
    forall q | 0 <= q < |s.procs|
      ensures Tokens(c.procs[q], r.bus, r.procs[q], r.toBus[q], r.toProc[q])
    {
      if q == p {
        AnsweredTokens(c.procs[p], s.bus, r.bus, s.procs[p], s.toBus[p], s.toProc[p], m);
      } else {
        NotOwned(c, p, q, m);
        ForeignTokens(c.procs[q], s.bus, r.bus, s.procs[q], s.toBus[q], s.toProc[q], s.toBus[q], AnswerTo(m));
      }
    }
  }

  /** An Exit of another process takes none of q's UIDs from the bus. */
  lemma {:induction false} ExitSpares(c: Config, s: State, p: nat, q: nat)
    requires c.Valid() && Shape(c, s) && p < |c.procs| && q < |c.procs| && s.toBus[p] != [] && s.toBus[p][0].Exit?
    requires p == q ==> s.procs[q].phase.Gone?
    ensures var x := s.procs[q];
            x.phase.Connecting? || x.phase.Indexing? ==> Handled(s.bus, Request(c.procs[q], x)) ==>
            Handled(BusStep(c, s, p).bus, Request(c.procs[q], x))
  {
    var x, m := s.procs[q], s.toBus[p][0];
    assert FromSlot(c.procs[p], m) && PhaseOk(c.procs[q], x);
    if p != q {
      NotOwned(c, p, q, m);
      if x.phase.Connecting? {
        assert Owns(c.procs[q], c.procs[q][x.phase.i].uid);
      }
    }
  }

  lemma {:induction false} OtherTaken(c: Config, s: State, p: nat)
    requires Inv(c, s) && AckInv(c, s) && p < |s.procs| && s.toBus[p] != [] && !Asks(s.toBus[p][0])
    requires Shape(c, s) && Shape(c, BusStep(c, s, p))
    ensures AckInv(c, BusStep(c, s, p))
  {
    var r, m := BusStep(c, s, p), s.toBus[p][0];
    if m.Exit? {
      assert ProcInv(c.procs[p], c.step, s.bus, p, s.procs[p], s.toBus[p], s.toProc[p]);
      ExitMeansGone(c.procs[p], c.step, s.bus, p, s.procs[p], s.toBus[p], s.toProc[p]);
    }
    hide Inv, Tokens, WriteAll, Exits, NetworkReady, ModelsReady;
    var ack := if r.toProc == s.toProc then Start(0.0, 0.0, Delta(map[], map[]))
               else StartOf(Readied(s.bus, p, m.vectors), c.step);
    forall q | 0 <= q < |s.procs|
      ensures Tokens(c.procs[q], r.bus, r.procs[q], r.toBus[q], r.toProc[q])
    {
      if m.Exit? {
        ExitSpares(c, s, p, q);
      }
      ForeignTokens(c.procs[q], s.bus, r.bus, s.procs[q], s.toBus[q], s.toProc[q], r.toBus[q], ack);
    }
  }

  lemma {:induction false} ExitMeansGone(slots: seq<Slot>, step: real, b: Bus, p: nat, x: Proc, tb: seq<ToBus>,
                                         tp: seq<ToProc>)
    requires ProcInv(slots, step, b, p, x, tb, tp) && tb != [] && tb[0].Exit?
    ensures x.phase.Gone?
  {
    hide Counts, Turnout, Membership, Timed, Served;
    assert Rank(tb[0]) <= Limit(x.phase);
  }

  // ---- Runs ----

  lemma {:induction false} StepTokens(c: Config, s: State, a: Action)
    requires Inv(c, s) && Shape(c, s) && Enabled(c, s, a) && AckInv(c, s)
    ensures Shape(c, Step(c, s, a)) && AckInv(c, Step(c, s, a))
  {
    StepKeeps(c, s, a);
    InvShape(c, Step(c, s, a));
    InvShape(c, s);
    hide Inv, AckInv, BusStep;
    if a.BusTakes? {
      if Asks(s.toBus[a.p][0]) {
        AskedTaken(c, s, a.p);
      } else {
        OtherTaken(c, s, a.p);
      }
    } else {
      LocalTokens(c, s, a);
    }
  }

  lemma {:induction false} InitTokens(c: Config)
    requires c.Valid() && Shape(c, Init(c))
    ensures AckInv(c, Init(c))
  {
    hide FromSlot;
  }

  lemma {:induction false} TraceTokens(c: Config, acts: seq<Action>, states: seq<State>, n: nat)
    requires Trace(c, acts, states) && n <= |acts|
    ensures Inv(c, states[n]) && Shape(c, states[n]) && AckInv(c, states[n])
  {
    hide Inv, AckInv, Step, Enabled;
    if n == 0 {
      InitKeeps(c);
      InvShape(c, Init(c));
      InitTokens(c);
    } else {
      TraceTokens(c, acts, states, n - 1);
      StepTokens(c, states[n - 1], acts[n - 1]);
      TraceKeeps(c, acts, states, n);
    }
  }

  /**
   * x waits for the ACK of slot i, and is y after m. It goes on exactly if m is an ACK for one of its models with its
   * token. That ACK answers its own last request: the slot is registered, or its signals are on the bus.
   */
  ghost predicate TakesAck(slots: seq<Slot>, b: Bus, x: Proc, y: Proc, m: ToProc)
    requires x.phase.Connecting? || x.phase.Indexing?
  {
    var i := x.phase.i;
    if !m.Start? && m.token == x.token && exists j :: 0 <= j < |slots| && slots[j].uid == m.uid then
      && i < |slots| && m.uid == slots[i].uid
      && (x.phase.Connecting? ==>
            && m.RegisterAck? && slots[i].ch < |b.reg| && slots[i].uid in b.reg[slots[i].ch]
            && y.phase == if i + 1 < |slots| then Connecting(i + 1, 1) else Indexing(0))
      && (x.phase.Indexing? ==>
            && m.IndexAck? && (forall sig | sig in slots[i].signals :: Key(slots[i].ch, sig) in b.sv)
            && y.phase == if i + 1 < |slots| then Indexing(i + 1) else Running)
    else y == x
  }

  /** Over any run, that is what a process does with any message while it connects or indexes. */
  lemma {:induction false} AckIsOwn(c: Config, acts: seq<Action>, states: seq<State>, n: nat, p: nat)
    requires Trace(c, acts, states) && n < |acts| && n + 1 < |states| && acts[n] == ProcTakes(p) && p < |c.procs|
    requires |states[n].procs| == |states[n].toProc| == |states[n + 1].procs| == |c.procs| && states[n].toProc[p] != []
    requires states[n].procs[p].phase.Connecting? || states[n].procs[p].phase.Indexing?
    ensures TakesAck(c.procs[p], states[n].bus, states[n].procs[p], states[n + 1].procs[p], states[n].toProc[p][0])
  {
    var s, r := states[n], states[n + 1];
    assert r == Step(c, s, ProcTakes(p)) && Enabled(c, s, ProcTakes(p));
    hide *;
    TraceTokens(c, acts, states, n);
    AckStep(c, s, p);
  }

  lemma {:induction false} AckStep(c: Config, s: State, p: nat)
    requires Shape(c, s) && AckInv(c, s) && p < |c.procs| && Enabled(c, s, ProcTakes(p))
    requires s.procs[p].phase.Connecting? || s.procs[p].phase.Indexing?
    ensures |Step(c, s, ProcTakes(p)).procs| == |c.procs|
    ensures TakesAck(c.procs[p], s.bus, s.procs[p], Step(c, s, ProcTakes(p)).procs[p], s.toProc[p][0])
  {
    var slots, x, m := c.procs[p], s.procs[p], s.toProc[p][0];
    assert PhaseOk(slots, x) && Tokens(slots, s.bus, x, s.toBus[p], s.toProc[p]);
    hide FromSlot, NotifiedAll, AckInv;
    if AckFor(slots, m) && m.token == x.token {
      assert m == AnswerTo(Request(slots, x)) && Handled(s.bus, Request(slots, x));
    }
  }
}
