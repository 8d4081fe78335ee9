/** What every interleaving of the SimBus protocol keeps, and what follows for whole runs. */
module Barrier {
  import opened BusData
  import opened LockStep

  // ---- The invariant ----

  /** The bus time after n cycles. */
  function BusTime(n: nat, step: real): real {
    if n == 0 then 0.0 - step else BusTime(n - 1, step) + step
  }

  /** The Readies of a process that the bus has taken. */
  function Answered(x: Proc, tb: seq<ToBus>): int {
    x.readied - Readies(tb)
  }

  /** Every cycle's Start was taken or is in flight; every process answers once a cycle. */
  ghost predicate Counts(b: Bus, x: Proc, tb: seq<ToBus>, tp: seq<ToProc>) {
    x.started + Starts(tp) == |b.rounds| && |b.rounds| <= Answered(x, tb) <= |b.rounds| + 1
  }

  predicate InEntries(es: seq<Entry>, p: nat) {
    exists i :: 0 <= i < |es| && es[i].proc == p
  }

  /** A process is in the ready sets exactly when it has answered the current cycle. */
  ghost predicate Turnout(slots: seq<Slot>, b: Bus, p: nat, x: Proc, tb: seq<ToBus>)
    requires forall i | 0 <= i < |slots| :: slots[i].ch < |b.rdy|
  {
    var ready := Answered(x, tb) == |b.rounds| + 1;
    && (forall i | 0 <= i < |slots| :: slots[i].uid in b.rdy[slots[i].ch] ==> ready)
    && (ready && p !in b.left ==> forall i | 0 <= i < |slots| :: slots[i].uid in b.rdy[slots[i].ch])
    && (ready ==> p in b.known)
    && (ready <==> InEntries(b.entries, p))
  }

  predicate Asked(slot: Slot, tb: seq<ToBus>) {
    exists i :: 0 <= i < |tb| && tb[i].Register? && tb[i].uid == slot.uid && tb[i].ch == slot.ch
  }

  /** A slot whose Register was sent is registered, or the Register is in flight; until the process leaves. */
  ghost predicate Membership(slots: seq<Slot>, b: Bus, p: nat, x: Proc, tb: seq<ToBus>)
    requires forall i | 0 <= i < |slots| :: slots[i].ch < |b.reg|
    requires x.asked <= |slots|
  {
    && (p !in b.left ==> forall i | 0 <= i < x.asked :: slots[i].uid in b.reg[slots[i].ch] || Asked(slots[i], tb))
    && (forall i | 0 <= i < |slots| :: slots[i].uid in b.reg[slots[i].ch] ==> p in b.known)
    && (p in b.left ==> x.phase.Gone? && (forall i | 0 <= i < |tb| :: tb[i].Exit?)
                        && exists i :: 0 <= i < |slots| && slots[i].uid !in b.reg[slots[i].ch])
  }

  function Rank(m: ToBus): nat {
    match m
    case Register(_, _, _) => 0
    case Index(_, _, _, _) => 1
    case Ready(_) => 2
    case Exit(_, _) => 3
  }

  function Limit(ph: Phase): nat {
    match ph
    case Connecting(_, _) => 0
    case Indexing(_) => 1
    case Running => 2
    case Waiting => 2
    case Gone => 3
  }

  /** Requests are in flight in order: Registers, Indexes, Readies, Exits. */
  ghost predicate InOrder(x: Proc, tb: seq<ToBus>) {
    && (forall i, j | 0 <= i < j < |tb| :: Rank(tb[i]) <= Rank(tb[j]))
    && (forall i | 0 <= i < |tb| :: Rank(tb[i]) <= Limit(x.phase))
    && (Answered(x, tb) >= 1 ==> forall i | 0 <= i < |tb| :: Rank(tb[i]) >= 2)
  }

  ghost predicate Timed(b: Bus, tp: seq<ToProc>, step: real) {
    forall i | 0 <= i < |tp| && tp[i].Start? ::
      tp[i].time == BusTime(|b.rounds|, step) && tp[i].stop == tp[i].time + step
  }

  /** What a process waits for will come: the request or its ACK is in flight. */
  ghost predicate Served(slots: seq<Slot>, x: Proc, tb: seq<ToBus>, tp: seq<ToProc>)
    requires PhaseOk(slots, x)
  {
    match x.phase
    case Connecting(i, _) => Register(slots[i].uid, slots[i].ch, x.token) in tb || RegisterAck(slots[i].uid,
        x.token) in tp
    case Indexing(i) => Index(slots[i].uid, slots[i].ch, x.token, slots[i].signals) in tb || IndexAck(slots[i].uid,
        x.token) in tp
    case _ => true
  }

  ghost predicate Core(slots: seq<Slot>, step: real, b: Bus, p: nat, x: Proc, tb: seq<ToBus>, tp: seq<ToProc>) {
    && PhaseOk(slots, x) && |b.reg| == |b.rdy| && (forall i | 0 <= i < |slots| :: slots[i].ch < |b.reg|)
    && Counts(b, x, tb, tp) && Turnout(slots, b, p, x, tb) && Membership(slots, b, p, x, tb)
    && InOrder(x, tb) && Timed(b, tp, step)
  }

  ghost predicate ProcInv(slots: seq<Slot>, step: real, b: Bus, p: nat, x: Proc, tb: seq<ToBus>, tp: seq<ToProc>) {
    Core(slots, step, b, p, x, tb, tp) && Served(slots, x, tb, tp)
  }

  /** The bus, up to the check that ends a cycle. */
  ghost predicate BusCore(c: Config, b: Bus) {
    && |b.reg| == |b.rdy| == c.channels
    && (forall ch | 0 <= ch < c.channels :: b.reg[ch] <= c.Members(ch) && b.rdy[ch] <= c.Members(ch))
    && b.time == BusTime(|b.rounds|, c.step)
    && (forall i, j | 0 <= i < j < |b.entries| :: b.entries[i].proc != b.entries[j].proc)
    && (forall i | 0 <= i < |b.entries| :: b.entries[i].proc < |c.procs|)
    && (forall p | p in b.left :: p < |c.procs|)
    && (b.exit ==> b.left != {})
  }

  ghost predicate BusInv(c: Config, b: Bus) {
    BusCore(c, b) && !(NetworkReady(c, b) && ModelsReady(c, b))
  }

  ghost predicate Inv(c: Config, s: State) {
    && c.Valid() && Shape(c, s) && BusInv(c, s.bus)
    && forall p | 0 <= p < |s.procs| :: ProcInv(c.procs[p], c.step, s.bus, p, s.procs[p], s.toBus[p], s.toProc[p])
  }

  // ---- Processes ----

  lemma {:induction false} RequestMembership(slots: seq<Slot>, b: Bus, p: nat, x: Proc, tb: seq<ToBus>, y: Proc,
                                             m: ToBus)
    requires (forall i | 0 <= i < |slots| :: slots[i].ch < |b.reg|) && x.asked <= y.asked <= |slots|
    requires Membership(slots, b, p, x, tb) && !x.phase.Gone?
    requires y.asked > x.asked ==> m.Register?
    requires forall i | x.asked <= i < y.asked :: slots[i].uid == m.uid && slots[i].ch == m.ch
    ensures Membership(slots, b, p, y, tb + [m])
  {
    var q := tb + [m];
    assert q[|tb|] == m;
    forall i | 0 <= i < |slots| && Asked(slots[i], tb) ensures Asked(slots[i], q) {
      var j :| 0 <= j < |tb| && tb[j].Register? && tb[j].uid == slots[i].uid && tb[j].ch == slots[i].ch;
      assert q[j] == tb[j];
    }
    forall i | x.asked <= i < y.asked ensures Asked(slots[i], q) {}
  }

  lemma {:induction false} RequestAnswered(x: Proc, tb: seq<ToBus>, y: Proc, m: ToBus)
    requires y.readied == x.readied + (if m.Ready? then 1 else 0)
    ensures Answered(y, tb + [m]) == Answered(x, tb)
  {
    ReadiesAppend(tb, [m]);
    assert [m][..0] == [];
    assert Readies([m]) == if m.Ready? then 1 else 0;
  }

  /** A process sends its next request. */
  lemma {:induction false} RequestKeeps(slots: seq<Slot>, step: real, b: Bus, p: nat, x: Proc, tb: seq<ToBus>,
                                        tp: seq<ToProc>,
                                        y: Proc, m: ToBus)
    requires Core(slots, step, b, p, x, tb, tp) && PhaseOk(slots, y)
    requires y.started == x.started && Limit(x.phase) <= Rank(m) == Limit(y.phase) && !x.phase.Gone? && !y.phase.Gone?
    requires y.readied == x.readied + (if m.Ready? then 1 else 0)
    requires m.Register? || m.Index? ==> x.readied == 0
    requires y.asked >= x.asked
    requires y.asked > x.asked ==> m.Register?
    requires forall i | x.asked <= i < y.asked :: slots[i].uid == m.uid && slots[i].ch == m.ch
    requires y.phase.Connecting? ==> m == Register(slots[y.phase.i].uid, slots[y.phase.i].ch, y.token)
    requires y.phase.Indexing? ==>
               m == Index(slots[y.phase.i].uid, slots[y.phase.i].ch, y.token, slots[y.phase.i].signals)
    ensures ProcInv(slots, step, b, p, y, tb + [m], tp)
  {
    hide Membership, Timed, InEntries, Answered, InOrder, Asked;
    RequestMembership(slots, b, p, x, tb, y, m);
    RequestAnswered(x, tb, y, m);
    AnsweredReadied(x, tb);
    RequestOrder(x, tb, y, m);
    assert (tb + [m])[|tb|] == m;
  }

  lemma {:induction false} RequestOrder(x: Proc, tb: seq<ToBus>, y: Proc, m: ToBus)
    requires InOrder(x, tb) && Limit(x.phase) <= Rank(m) == Limit(y.phase) && Answered(y, tb + [m]) == Answered(x, tb)
    requires m.Register? || m.Index? ==> Answered(x, tb) < 1
    ensures InOrder(y, tb + [m])
  {
    hide Answered;
  }

  lemma {:induction false} AnsweredReadied(x: Proc, tb: seq<ToBus>)
    ensures Answered(x, tb) <= x.readied
  {}

  /** A process that has sent nothing but connection requests has no Start in flight. */
  lemma {:induction false} NoStartYet(slots: seq<Slot>, step: real, b: Bus, p: nat, x: Proc, tb: seq<ToBus>,
                                      tp: seq<ToProc>)
    requires Core(slots, step, b, p, x, tb, tp) && x.started == x.readied
    ensures Starts(tp) == 0 && forall i | 0 <= i < |tp| :: !tp[i].Start?
  {
    StartsNone(tp);
  }

  /** The first message is taken and makes no difference, or is the Start that is waited for. */
  lemma {:induction false} PopKeeps(slots: seq<Slot>, step: real, b: Bus, p: nat, x: Proc, tb: seq<ToBus>,
                                    tp: seq<ToProc>, y: Proc)
    requires Core(slots, step, b, p, x, tb, tp) && tp != [] && PhaseOk(slots, y)
    requires y.asked == x.asked && y.readied == x.readied && Limit(y.phase) == Limit(x.phase)
    requires y.started == x.started + (if tp[0].Start? then 1 else 0)
    requires x.phase.Gone? == y.phase.Gone?
    ensures Core(slots, step, b, p, y, tb, tp[1..])
  {
    StartsFirst(tp);
  }

  lemma {:induction false} LeaveMembership(slots: seq<Slot>, b: Bus, p: nat, x: Proc, tb: seq<ToBus>, sent: seq<ToBus>)
    requires (forall i | 0 <= i < |slots| :: slots[i].ch < |b.reg|) && x.asked <= |slots|
    requires Membership(slots, b, p, x, tb) && !x.phase.Gone?
    ensures Membership(slots, b, p, x.(phase := Gone), tb + sent)
  {
    var q := tb + sent;
    forall i | 0 <= i < |slots| && Asked(slots[i], tb) ensures Asked(slots[i], q) {
      var j :| 0 <= j < |tb| && tb[j].Register? && tb[j].uid == slots[i].uid && tb[j].ch == slots[i].ch;
      assert q[j] == tb[j];
    }
  }

  lemma {:induction false} LeaveOrder(x: Proc, tb: seq<ToBus>, sent: seq<ToBus>)
    requires InOrder(x, tb) && forall i | 0 <= i < |sent| :: sent[i].Exit?
    ensures InOrder(x.(phase := Gone), tb + sent) && Answered(x, tb + sent) == Answered(x, tb)
  {
    hide Readies;
    ReadiesAppend(tb, sent);
    ReadiesNone(sent);
    var q := tb + sent;
    forall i | 0 <= i < |q| ensures Rank(q[i]) == (if i < |tb| then Rank(tb[i]) else 3) {
      assert i < |tb| ==> q[i] == tb[i];
      assert i >= |tb| ==> q[i] == sent[i - |tb|];
    }
    forall i, j | 0 <= i < j < |q| ensures Rank(q[i]) <= Rank(q[j]) {
      assert j < |tb| ==> Rank(tb[i]) <= Rank(tb[j]);
      assert i < |tb| ==> Rank(tb[i]) <= 3;
    }
  }

  /** Leaving: the Exits follow whatever else is in flight. */
  lemma {:induction false} LeaveKeeps(slots: seq<Slot>, step: real, b: Bus, p: nat, x: Proc, tb: seq<ToBus>,
                                      tp: seq<ToProc>,
                                      sent: seq<ToBus>)
    requires Core(slots, step, b, p, x, tb, tp) && !x.phase.Gone?
    requires forall i | 0 <= i < |sent| :: sent[i].Exit?
    ensures ProcInv(slots, step, b, p, x.(phase := Gone), tb + sent, tp)
  {
    hide Membership, InOrder, InEntries, Timed;
    LeaveMembership(slots, b, p, x, tb, sent);
    LeaveOrder(x, tb, sent);
  }

  // ---- Steps of processes ----

  lemma {:induction false} AskKeeps(slots: seq<Slot>, step: real, b: Bus, p: nat, x: Proc, tb: seq<ToBus>,
                                    tp: seq<ToProc>,
                                    i: nat, tries: nat)
    requires Core(slots, step, b, p, x, tb, tp) && x.phase.Connecting? && x.phase.i <= i <= x.phase.i + 1 && i < |slots|
    ensures var t := Ask(slots, x, i, tries); ProcInv(slots, step, b, p, t.proc, tb + t.sent, tp)
  {
    hide Core, ProcInv;
    CorePhase(slots, step, b, p, x, tb, tp);
    var t := Ask(slots, x, i, tries);
    RequestKeeps(slots, step, b, p, x, tb, tp, t.proc, t.sent[0]);
    assert t.sent == [t.sent[0]];
  }

  lemma {:induction false} CorePhase(slots: seq<Slot>, step: real, b: Bus, p: nat, x: Proc, tb: seq<ToBus>,
                                     tp: seq<ToProc>)
    requires Core(slots, step, b, p, x, tb, tp)
    ensures PhaseOk(slots, x)
  {}

  lemma {:induction false} AskIndexKeeps(slots: seq<Slot>, step: real, b: Bus, p: nat, x: Proc, tb: seq<ToBus>,
                                         tp: seq<ToProc>, i: nat)
    requires Core(slots, step, b, p, x, tb, tp) && i < |slots| == x.asked
    requires x.phase.Connecting? || x.phase.Indexing?
    ensures var t := AskIndex(slots, x, i); ProcInv(slots, step, b, p, t.proc, tb + t.sent, tp)
  {
    hide Core, ProcInv;
    CorePhase(slots, step, b, p, x, tb, tp);
    var t := AskIndex(slots, x, i);
    RequestKeeps(slots, step, b, p, x, tb, tp, t.proc, t.sent[0]);
    assert t.sent == [t.sent[0]];
  }

  lemma {:induction false} ConnectedKeeps(slots: seq<Slot>, step: real, b: Bus, p: nat, x: Proc, tb: seq<ToBus>,
                                          tp: seq<ToProc>)
    requires Core(slots, step, b, p, x, tb, tp) && x.phase.Connecting? && x.phase.i < |slots|
    ensures var t := Connected(slots, x, x.phase.i); ProcInv(slots, step, b, p, t.proc, tb + t.sent, tp)
  {
    hide Core, ProcInv;
    CorePhase(slots, step, b, p, x, tb, tp);
    if x.phase.i + 1 < |slots| {
      AskKeeps(slots, step, b, p, x, tb, tp, x.phase.i + 1, 1);
    } else {
      AskIndexKeeps(slots, step, b, p, x, tb, tp, 0);
    }
  }

  lemma {:induction false} TakenKeeps(slots: seq<Slot>, step: real, b: Bus, p: nat, x: Proc, tb: seq<ToBus>,
                                      tp: seq<ToProc>)
    requires ProcInv(slots, step, b, p, x, tb, tp) && tp != [] && Receiving(x) && |x.cells| == |slots|
    ensures var t := Taken(slots, x, tp[0]); ProcInv(slots, step, b, p, t.proc, tb + t.sent, tp[1..])
  {
    hide Core, NotifiedAll;
    CorePhase(slots, step, b, p, x, tb, tp);
    var m, rest, t := tp[0], tp[1..], Taken(slots, x, tp[0]);
    if !x.phase.Waiting? {
      NoStartYet(slots, step, b, p, x, tb, tp);
    }
    assert tb + [] == tb;
    assert forall n | n in tp && n != m :: n in rest by {
      assert tp == [m] + rest;
    }
    if x.phase.Waiting? {
      PopKeeps(slots, step, b, p, x, tb, tp, t.proc);
    } else {
      PopKeeps(slots, step, b, p, x, tb, tp, x);
      if x.phase.Connecting? {
        if !m.Start? && Owns(slots, m.uid) && m.token == x.token {
          ConnectedKeeps(slots, step, b, p, x, tb, rest);
        }
      } else if !m.Start? && Owns(slots, m.uid) && m.token == x.token {
        if x.phase.i + 1 < |slots| {
          AskIndexKeeps(slots, step, b, p, x, tb, rest, x.phase.i + 1);
        } else {
          RunningKeeps(slots, step, b, p, x, tb, rest);
        }
      }
    }
  }

  lemma {:induction false} RunningKeeps(slots: seq<Slot>, step: real, b: Bus, p: nat, x: Proc, tb: seq<ToBus>,
                                        tp: seq<ToProc>)
    requires Core(slots, step, b, p, x, tb, tp) && x.phase.Indexing?
    ensures ProcInv(slots, step, b, p, x.(phase := Running), tb, tp)
  {}

  lemma {:induction false} SentReadyKeeps(slots: seq<Slot>, step: real, b: Bus, p: nat, x: Proc, tb: seq<ToBus>,
                                          tp: seq<ToProc>,
                                          fins: seq<map<nat, real>>, ops: seq<map<nat, seq<BinOp>>>)
    requires Core(slots, step, b, p, x, tb, tp) && x.phase.Running? && |x.cells| == |slots| == |fins| == |ops|
    ensures var t := SentReady(slots, x, fins, ops); ProcInv(slots, step, b, p, t.proc, tb + t.sent, tp)
  {
    hide Core, ProcInv, SteppedAll, EncodedAll, Consumed;
    CorePhase(slots, step, b, p, x, tb, tp);
    var t := SentReady(slots, x, fins, ops);
    RequestKeeps(slots, step, b, p, x, tb, tp, t.proc, t.sent[0]);
    assert t.sent == [t.sent[0]];
  }

  // ---- Ready sets and members ----

  lemma {:induction false} SameSize(a: set<nat>, b: set<nat>)
    requires a <= b
    ensures |a| <= |b| && (|a| == |b| <==> a == b)
  {
    assert b == a + (b - a);
  }

  /** With only members in the sets, the counts agree exactly when the sets are complete. */
  lemma {:induction false} ReadyMeansAll(c: Config, b: Bus)
    requires BusCore(c, b)
    ensures NetworkReady(c, b) <==> forall ch | 0 <= ch < c.channels :: b.reg[ch] == c.Members(ch)
    ensures ModelsReady(c, b) <==> forall ch | 0 <= ch < c.channels :: b.rdy[ch] == c.Members(ch)
  {
    forall ch | 0 <= ch < c.channels
      ensures |c.Members(ch)| == |b.reg[ch]| <==> b.reg[ch] == c.Members(ch)
      ensures |c.Members(ch)| == |b.rdy[ch]| <==> b.rdy[ch] == c.Members(ch)
    {
      SameSize(b.reg[ch], c.Members(ch));
      SameSize(b.rdy[ch], c.Members(ch));
    }
  }

  lemma {:induction false} SlotIsMember(c: Config, p: nat, i: nat)
    requires c.Valid() && p < |c.procs| && i < |c.procs[p]|
    ensures c.procs[p][i].ch < c.channels && c.procs[p][i].uid in c.Members(c.procs[p][i].ch)
  {}

  lemma {:induction false} MissingModel(c: Config, b: Bus, p: nat, i: nat)
    requires c.Valid() && BusCore(c, b) && p < |c.procs| && i < |c.procs[p]|
    ensures c.procs[p][i].ch < c.channels
    ensures c.procs[p][i].uid !in b.rdy[c.procs[p][i].ch] ==> !ModelsReady(c, b)
    ensures c.procs[p][i].uid !in b.reg[c.procs[p][i].ch] ==> !NetworkReady(c, b)
  {
    ReadyMeansAll(c, b);
    SlotIsMember(c, p, i);
  }

  // ---- Steps of the bus ----

  /** An ACK goes into the queue of a process. */
  lemma {:induction false} AckKeeps(slots: seq<Slot>, step: real, b: Bus, p: nat, x: Proc, tb: seq<ToBus>,
                                    tp: seq<ToProc>, m: ToProc)
    requires Core(slots, step, b, p, x, tb, tp) && !m.Start?
    ensures Core(slots, step, b, p, x, tb, tp + [m])
    ensures Served(slots, x, tb, tp) ==> Served(slots, x, tb, tp + [m])
  {
    StartsAppend(tp, m);
  }

  lemma {:induction false} RegisterOther(slots: seq<Slot>, step: real, b: Bus, q: nat, x: Proc, tb: seq<ToBus>,
                                         tp: seq<ToProc>,
                                         p: nat, uid: nat, ch: nat)
    requires Core(slots, step, b, q, x, tb, tp) && ch < |b.reg|
    requires forall i | 0 <= i < |slots| :: slots[i].uid != uid
    ensures Core(slots, step, Registers(b, p, uid, ch), q, x, tb, tp)
  {}

  /** A request of the process itself is taken: not a Ready, so nothing is answered. */
  lemma {:induction false} RegisterOwn(slots: seq<Slot>, step: real, b: Bus, p: nat, x: Proc, tb: seq<ToBus>,
                                       tp: seq<ToProc>)
    requires Core(slots, step, b, p, x, tb, tp) && tb != [] && tb[0].Register? && tb[0].ch < |b.reg|
    ensures Core(slots, step, Registers(b, p, tb[0].uid, tb[0].ch), p, x, tb[1..], tp)
    ensures Answered(x, tb) != |b.rounds| + 1
  {
    ReadiesFirst(tb);
    assert Rank(tb[0]) == 0;
    var r := Registers(b, p, tb[0].uid, tb[0].ch);
    forall i | 0 <= i < |slots| && Asked(slots[i], tb)
      ensures slots[i].uid in r.reg[slots[i].ch] || Asked(slots[i], tb[1..])
    {
      var j :| 0 <= j < |tb| && tb[j].Register? && tb[j].uid == slots[i].uid && tb[j].ch == slots[i].ch;
      if j > 0 {
        assert tb[1..][j - 1] == tb[j];
      }
    }
  }

  lemma {:induction false} IndexOwn(slots: seq<Slot>, step: real, b: Bus, sv: map<Key, Sv>, p: nat, x: Proc,
                                    tb: seq<ToBus>, tp: seq<ToProc>)
    requires Core(slots, step, b, p, x, tb, tp) && tb != [] && tb[0].Index? && slots != []
    ensures Core(slots, step, b.(sv := sv), p, x, tb[1..], tp)
    ensures x.phase.Indexing? ==> p in b.known
  {
    ReadiesFirst(tb);
    assert Rank(tb[0]) == 1;
    forall i | 0 <= i < |slots| && Asked(slots[i], tb) ensures Asked(slots[i], tb[1..]) {
      var j :| 0 <= j < |tb| && tb[j].Register? && tb[j].uid == slots[i].uid && tb[j].ch == slots[i].ch;
      assert tb[1..][j - 1] == tb[j];
    }
    if x.phase.Indexing? {
      assert forall i | 0 <= i < |tb| :: Rank(tb[0]) <= Rank(tb[i]);
      assert !Asked(slots[0], tb);
      assert tb[0] in tb;
    }
  }

  lemma {:induction false} ExitOther(slots: seq<Slot>, step: real, b: Bus, q: nat, x: Proc, tb: seq<ToBus>,
                                     tp: seq<ToProc>,
                                     p: nat, uid: nat, ch: nat)
    requires Core(slots, step, b, q, x, tb, tp) && ch < |b.reg| && p != q
    requires forall i | 0 <= i < |slots| :: slots[i].uid != uid
    ensures Core(slots, step, Exits(b, p, uid, ch), q, x, tb, tp)
  {}

  lemma {:induction false} ExitOwn(slots: seq<Slot>, step: real, b: Bus, p: nat, x: Proc, tb: seq<ToBus>,
                                   tp: seq<ToProc>)
    requires Core(slots, step, b, p, x, tb, tp) && tb != [] && tb[0].Exit?
    requires tb[0].ch < |b.reg| && FromSlot(slots, tb[0])
    ensures Core(slots, step, Exits(b, p, tb[0].uid, tb[0].ch), p, x, tb[1..], tp) && x.phase.Gone?
  {
    ReadiesFirst(tb);
    assert Rank(tb[0]) == 3;
    assert forall i | 0 <= i < |tb| :: Rank(tb[0]) <= Rank(tb[i]);
  }

  // ---- A Ready ----

  lemma {:induction false} EntriesAppend(es: seq<Entry>, e: Entry, p: nat)
    ensures InEntries(es + [e], p) <==> InEntries(es, p) || e.proc == p
  {
    assert (es + [e])[|es|] == e;
    if InEntries(es, p) {
      var i :| 0 <= i < |es| && es[i].proc == p;
      assert (es + [e])[i] == es[i];
    }
  }

  lemma {:induction false} ReadyOther(slots: seq<Slot>, step: real, b: Bus, q: nat, x: Proc, tb: seq<ToBus>,
                                      tp: seq<ToProc>,
                                      p: nat, vs: seq<Vector>)
    requires Core(slots, step, b, q, x, tb, tp) && p != q
    requires forall i, j | 0 <= i < |slots| && 0 <= j < |vs| :: slots[i].uid != vs[j].uid
    ensures Core(slots, step, Readied(b, p, vs), q, x, tb, tp)
  {
    hide WriteAll;
    EntriesAppend(b.entries, Entry(p, vs), q);
    var r := Readied(b, p, vs);
    forall i | 0 <= i < |slots| ensures slots[i].uid in r.rdy[slots[i].ch] <==> slots[i].uid in b.rdy[slots[i].ch] {}
  }

  lemma {:induction false} ReadyOwn(slots: seq<Slot>, step: real, b: Bus, p: nat, x: Proc, tb: seq<ToBus>,
                                    tp: seq<ToProc>)
    requires Core(slots, step, b, p, x, tb, tp) && tb != [] && tb[0].Ready? && FromSlot(slots, tb[0]) && slots != []
    ensures Core(slots, step, Readied(b, p, tb[0].vectors), p, x, tb[1..], tp)
    ensures !InEntries(b.entries, p)
  {
    hide WriteAll;
    ReadiesFirst(tb);
    var vs := tb[0].vectors;
    var r := Readied(b, p, vs);
    EntriesAppend(b.entries, Entry(p, vs), p);
    assert Rank(tb[0]) == 2;
    assert forall i | 0 <= i < |tb| :: Rank(tb[0]) <= Rank(tb[i]);
    assert x.asked == |slots|;
    forall i | 0 <= i < |slots| ensures slots[i].uid in r.rdy[slots[i].ch] && !Asked(slots[i], tb) {
      assert vs[i].uid in ReadyUids(vs, slots[i].ch);
    }
    assert slots[0].uid in b.reg[slots[0].ch];
  }

  /** The cycle ends: everybody has answered, and gets the Start. */
  lemma {:induction false} ResolveKeeps(slots: seq<Slot>, step: real, b: Bus, p: nat, x: Proc, tb: seq<ToBus>,
                                        tp: seq<ToProc>)
    requires Core(slots, step, b, p, x, tb, tp) && slots != [] && b.time == BusTime(|b.rounds|, step)
    requires forall i | 0 <= i < |slots| :: slots[i].uid in b.rdy[slots[i].ch]
    ensures p in b.known
    ensures Core(slots, step, Resolved(b, step), p, x, tb, tp + [StartOf(b, step)])
    ensures Served(slots, x, tb, tp) ==> Served(slots, x, tb, tp + [StartOf(b, step)])
  {
    hide Resolve, DeltaOf;
    var m := StartOf(b, step);
    assert slots[0].uid in b.rdy[slots[0].ch];
    StartsAppend(tp, m);
    StartsNone(tp);
  }

  // ---- Every step keeps the invariant ----

  lemma {:induction false} ActedKeeps(c: Config, s: State, p: nat, t: Turn, tp: seq<ToProc>)
    requires Inv(c, s) && p < |s.procs| && |t.proc.cells| == |c.procs[p]|
    requires ProcInv(c.procs[p], c.step, s.bus, p, t.proc, s.toBus[p] + t.sent, tp)
    requires forall i | 0 <= i < |t.sent| :: FromSlot(c.procs[p], t.sent[i])
    ensures Inv(c, Acted(s.(toProc := s.toProc[p := tp]), p, t))
  {
    hide Core, Served, BusInv, FromSlot;
    var r := Acted(s.(toProc := s.toProc[p := tp]), p, t);
    CorePhase(c.procs[p], c.step, s.bus, p, t.proc, s.toBus[p] + t.sent, tp);
    assert forall q | 0 <= q < |s.procs| && q != p ::
        r.procs[q] == s.procs[q] && r.toBus[q] == s.toBus[q] && r.toProc[q] == s.toProc[q];
    assert Shape(c, r);
  }

  ghost predicate AllFromSlot(slots: seq<Slot>, sent: seq<ToBus>) {
    forall i | 0 <= i < |sent| :: FromSlot(slots, sent[i])
  }

  lemma {:induction false} SentFromSlots(c: Config, s: State, a: Action)
    requires Shape(c, s) && Enabled(c, s, a) && !a.BusTakes?
    ensures var slots, x := c.procs[a.p], s.procs[a.p];
            match a
            case ProcTakes(_) => AllFromSlot(slots, Taken(slots, x, s.toProc[a.p][0]).sent)
            case TimesOut(_) => AllFromSlot(slots, TimedOut(slots, x).sent)
            case SendsReady(_, fins, ops) => AllFromSlot(slots, SentReady(slots, x, fins, ops).sent)
            case SendsExit(_) => AllFromSlot(slots, ExitAll(slots))
            case _ => true
  {
    hide SteppedAll, NotifiedAll, Consumed;
  }

  lemma {:induction false} LocalStepKeeps(c: Config, s: State, a: Action)
    requires Inv(c, s) && Enabled(c, s, a) && !a.BusTakes?
    ensures Inv(c, Step(c, s, a))
  {
    hide Core, Served, BusInv, FromSlot, Taken, TimedOut, SentReady, SteppedAll, NotifiedAll, Consumed, ExitAll, Acted;
    SentFromSlots(c, s, a);
    var p := a.p;
    var slots, x, tb, tp := c.procs[p], s.procs[p], s.toBus[p], s.toProc[p];
    assert s.toProc[p := tp] == s.toProc;
    match a
    case ProcTakes(_) =>
      TakenKeeps(slots, c.step, s.bus, p, x, tb, tp);
      TakenCells(slots, x, tp[0]);
      ActedKeeps(c, s, p, Taken(slots, x, tp[0]), tp[1..]);
    case TimesOut(_) =>
      TimedOutKeeps(slots, c.step, s.bus, p, x, tb, tp);
      ActedKeeps(c, s, p, TimedOut(slots, x), tp);
    case SendsReady(_, fins, ops) =>
      SentReadyKeeps(slots, c.step, s.bus, p, x, tb, tp, fins, ops);
      SentReadyCells(slots, x, fins, ops);
      ActedKeeps(c, s, p, SentReady(slots, x, fins, ops), tp);
    case SendsExit(_) =>
      ExitsOnly(slots);
      LeaveKeeps(slots, c.step, s.bus, p, x, tb, tp, ExitAll(slots));
      ActedKeeps(c, s, p, Turn(x.(phase := Gone), ExitAll(slots)), tp);
    case Crashes(_) =>
      LeaveKeeps(slots, c.step, s.bus, p, x, tb, tp, []);
      ActedKeeps(c, s, p, Turn(x.(phase := Gone), []), tp);
  }

  lemma {:induction false} ExitsOnly(slots: seq<Slot>)
    ensures forall i | 0 <= i < |ExitAll(slots)| :: ExitAll(slots)[i].Exit?
  {}

  lemma {:induction false} TakenCells(slots: seq<Slot>, x: Proc, m: ToProc)
    requires Receiving(x) && PhaseOk(slots, x) && |x.cells| == |slots|
    ensures |Taken(slots, x, m).proc.cells| == |slots|
  {}

  lemma {:induction false} SentReadyCells(slots: seq<Slot>, x: Proc, fins: seq<map<nat, real>>, ops: seq<map<nat,
                                          seq<BinOp>>>)
    requires |x.cells| == |slots| == |fins| == |ops|
    ensures |SentReady(slots, x, fins, ops).proc.cells| == |slots|
  {}

  lemma {:induction false} TimedOutKeeps(slots: seq<Slot>, step: real, b: Bus, p: nat, x: Proc, tb: seq<ToBus>,
                                         tp: seq<ToProc>)
    requires Core(slots, step, b, p, x, tb, tp) && x.phase.Connecting? && x.phase.i < |slots|
    ensures var t := TimedOut(slots, x); ProcInv(slots, step, b, p, t.proc, tb + t.sent, tp) && t.proc.cells == x.cells
  {
    hide Core, ProcInv;
    if x.phase.tries < RETRIES {
      AskKeeps(slots, step, b, p, x, tb, tp, x.phase.i, x.phase.tries + 1);
    } else {
      ConnectedKeeps(slots, step, b, p, x, tb, tp);
    }
  }

  /** Processes have distinct UIDs. */
  lemma {:induction false} OthersUid(c: Config, p: nat, q: nat, uid: nat)
    requires c.Valid() && p < |c.procs| && q < |c.procs| && p != q && Owns(c.procs[p], uid)
    ensures forall i | 0 <= i < |c.procs[q]| :: c.procs[q][i].uid != uid
  {}

  /** A bus step that sends m, which is no Start, to the known processes. */
  lemma {:induction false} AckedKeeps(c: Config, s: State, p: nat, b: Bus, m: ToProc)
    requires c.Valid() && Shape(c, s) && BusInv(c, b) && p < |s.procs| && s.toBus[p] != [] && !m.Start?
    requires forall q | 0 <= q < |s.procs| && q != p ::
               ProcInv(c.procs[q], c.step, b, q, s.procs[q], s.toBus[q], s.toProc[q])
    requires Core(c.procs[p], c.step, b, p, s.procs[p], s.toBus[p][1..], s.toProc[p])
    requires Served(c.procs[p], s.procs[p], s.toBus[p][1..], if p in b.known then s.toProc[p] + [m] else s.toProc[p])
    ensures Inv(c, s.(toBus := s.toBus[p := s.toBus[p][1..]], bus := b, toProc := Broadcast(b.known, s.toProc, m)))
  {
    hide Core, Served, BusInv, FromSlot;
    var r := s.(toBus := s.toBus[p := s.toBus[p][1..]], bus := b, toProc := Broadcast(b.known, s.toProc, m));
    BusSizes(c, b);
    forall q | 0 <= q < |s.procs|
      ensures ProcInv(c.procs[q], c.step, r.bus, q, r.procs[q], r.toBus[q], r.toProc[q])
    {
      AckKeeps(c.procs[q], c.step, b, q, r.procs[q], r.toBus[q], s.toProc[q], m);
    }
    assert Shape(c, r);
  }

  lemma {:induction false} BusSizes(c: Config, b: Bus)
    requires BusInv(c, b)
    ensures |b.reg| == |b.rdy| == c.channels
  {}

  lemma {:induction false} TakesRegister(c: Config, s: State, p: nat)
    requires Inv(c, s) && p < |s.procs| && s.toBus[p] != [] && s.toBus[p][0].Register?
    ensures Inv(c, BusStep(c, s, p))
  {
    hide Core, Turnout, Membership, BusInv;
    var m := s.toBus[p][0];
    var b := Registers(s.bus, p, m.uid, m.ch);
    assert FromSlot(c.procs[p], m);
    forall q | 0 <= q < |s.procs| && q != p
      ensures ProcInv(c.procs[q], c.step, b, q, s.procs[q], s.toBus[q], s.toProc[q])
    {
      OthersUid(c, p, q, m.uid);
      RegisterOther(c.procs[q], c.step, s.bus, q, s.procs[q], s.toBus[q], s.toProc[q], p, m.uid, m.ch);
    }
    RegisterOwn(c.procs[p], c.step, s.bus, p, s.procs[p], s.toBus[p], s.toProc[p]);
    RegisterBus(c, s, p);
    assert s.toBus[p] == [m] + s.toBus[p][1..];
    AckedKeeps(c, s, p, b, RegisterAck(m.uid, m.token));
  }

  lemma {:induction false} RegisterBus(c: Config, s: State, p: nat)
    requires Inv(c, s) && p < |s.procs| && s.toBus[p] != [] && s.toBus[p][0].Register?
        && FromSlot(c.procs[p], s.toBus[p][0])
    requires s.toBus[p][0].ch < |s.bus.reg| && Answered(s.procs[p], s.toBus[p]) != |s.bus.rounds| + 1
    ensures BusInv(c, Registers(s.bus, p, s.toBus[p][0].uid, s.toBus[p][0].ch))
  {
    var m := s.toBus[p][0];
    var b := Registers(s.bus, p, m.uid, m.ch);
    var i :| 0 <= i < |c.procs[p]| && c.procs[p][i].uid == m.uid && c.procs[p][i].ch == m.ch;
    SlotIsMember(c, p, i);
    assert ProcInv(c.procs[p], c.step, s.bus, p, s.procs[p], s.toBus[p], s.toProc[p]);
    assert c.procs[p][0].uid !in s.bus.rdy[c.procs[p][0].ch];
    MissingModel(c, b, p, 0);
  }

  lemma {:induction false} SameCore(slots: seq<Slot>, step: real, b: Bus, sv: map<Key, Sv>, q: nat, x: Proc,
                                    tb: seq<ToBus>, tp: seq<ToProc>)
    requires ProcInv(slots, step, b, q, x, tb, tp)
    ensures ProcInv(slots, step, b.(sv := sv), q, x, tb, tp)
  {}

  lemma {:induction false} TakesIndex(c: Config, s: State, p: nat)
    requires Inv(c, s) && p < |s.procs| && s.toBus[p] != [] && s.toBus[p][0].Index?
    ensures Inv(c, BusStep(c, s, p))
  {
    hide Core, Turnout, Membership, Indexed;
    var m := s.toBus[p][0];
    var sv := Indexed(s.bus.sv, m.ch, m.signals);
    var b := s.bus.(sv := sv);
    forall q | 0 <= q < |s.procs| && q != p
      ensures ProcInv(c.procs[q], c.step, b, q, s.procs[q], s.toBus[q], s.toProc[q])
    {
      SameCore(c.procs[q], c.step, s.bus, sv, q, s.procs[q], s.toBus[q], s.toProc[q]);
    }
    IndexOwn(c.procs[p], c.step, s.bus, sv, p, s.procs[p], s.toBus[p], s.toProc[p]);
    assert s.toBus[p] == [m] + s.toBus[p][1..];
    CorePhase(c.procs[p], c.step, s.bus, p, s.procs[p], s.toBus[p], s.toProc[p]);
    LowRank(c.procs[p], c.step, s.bus, p, s.procs[p], s.toBus[p], s.toProc[p]);
    AckedKeeps(c, s, p, b, IndexAck(m.uid, m.token));
  }

  lemma {:induction false} LowRank(slots: seq<Slot>, step: real, b: Bus, p: nat, x: Proc, tb: seq<ToBus>,
                                   tp: seq<ToProc>)
    requires Core(slots, step, b, p, x, tb, tp) && tb != []
    ensures Rank(tb[0]) <= Limit(x.phase)
  {}

  lemma {:induction false} TakesExit(c: Config, s: State, p: nat)
    requires Inv(c, s) && p < |s.procs| && s.toBus[p] != [] && s.toBus[p][0].Exit?
    ensures Inv(c, BusStep(c, s, p))
  {
    hide Core, Turnout, Membership, BusInv, Exits;
    var m := s.toBus[p][0];
    assert FromSlot(c.procs[p], m);
    BusSizes(c, s.bus);
    var b := Exits(s.bus, p, m.uid, m.ch);
    var r := BusStep(c, s, p);
    ExitOwn(c.procs[p], c.step, s.bus, p, s.procs[p], s.toBus[p], s.toProc[p]);
    ExitBus(c, s, p);
    BusSizes(c, b);
    forall q | 0 <= q < |s.procs|
      ensures ProcInv(c.procs[q], c.step, b, q, r.procs[q], r.toBus[q], r.toProc[q])
    {
      if q != p {
        OthersUid(c, p, q, m.uid);
        ExitOther(c.procs[q], c.step, s.bus, q, s.procs[q], s.toBus[q], s.toProc[q], p, m.uid, m.ch);
      }
    }
    hide FromSlot, ProcInv, PhaseOk;
    assert Shape(c, r);
  }

  lemma {:induction false} ExitBus(c: Config, s: State, p: nat)
    requires Inv(c, s) && p < |s.procs| && s.toBus[p] != [] && s.toBus[p][0].Exit?
    requires FromSlot(c.procs[p], s.toBus[p][0])
    requires s.toBus[p][0].ch < |s.bus.reg| == |s.bus.rdy|
    ensures BusInv(c, Exits(s.bus, p, s.toBus[p][0].uid, s.toBus[p][0].ch))
  {
    hide ProcInv;
    var m := s.toBus[p][0];
    var b := Exits(s.bus, p, m.uid, m.ch);
    var i :| 0 <= i < |c.procs[p]| && c.procs[p][i].uid == m.uid && c.procs[p][i].ch == m.ch;
    assert BusCore(c, b);
    MissingModel(c, b, p, i);
  }

  // ---- A Ready, and the end of a cycle ----

  lemma {:induction false} TakesReadyBus(c: Config, s: State, p: nat)
    requires Inv(c, s) && p < |s.procs| && s.toBus[p] != [] && s.toBus[p][0].Ready?
    requires FromSlot(c.procs[p], s.toBus[p][0])
    requires !InEntries(s.bus.entries, p)
    ensures BusCore(c, Readied(s.bus, p, s.toBus[p][0].vectors))
  {
    hide ProcInv, WriteAll, PhaseOk;
    var vs := s.toBus[p][0].vectors;
    var b := Readied(s.bus, p, vs);
    forall ch | 0 <= ch < c.channels ensures b.rdy[ch] <= c.Members(ch) {
      forall i | 0 <= i < |vs| && vs[i].ch == ch ensures vs[i].uid in c.Members(ch) {
        SlotIsMember(c, p, i);
      }
    }
    forall i | 0 <= i < |s.bus.entries| ensures s.bus.entries[i].proc != p {}
  }

  /** All processes after the Ready of p, before the check that ends the cycle. */
  lemma {:induction false} ReadiedAll(c: Config, s: State, p: nat)
    requires Inv(c, s) && p < |s.procs| && s.toBus[p] != [] && s.toBus[p][0].Ready?
    requires FromSlot(c.procs[p], s.toBus[p][0])
    ensures BusCore(c, Readied(s.bus, p, s.toBus[p][0].vectors))
    ensures forall q | 0 <= q < |s.procs| ::
              ProcInv(c.procs[q], c.step, Readied(s.bus, p, s.toBus[p][0].vectors), q, s.procs[q],
                      if q == p then s.toBus[p][1..] else s.toBus[q], s.toProc[q])
  {
    hide Core, Readied, BusInv;
    var vs := s.toBus[p][0].vectors;
    forall q | 0 <= q < |s.procs|
      ensures ProcInv(c.procs[q], c.step, Readied(s.bus, p, vs), q, s.procs[q],
                      if q == p then s.toBus[p][1..] else s.toBus[q], s.toProc[q])
    {
      if q == p {
        ReadyOwn(c.procs[p], c.step, s.bus, p, s.procs[p], s.toBus[p], s.toProc[p]);
        ReadyPhase(c.procs[p], c.step, s.bus, p, s.procs[p], s.toBus[p], s.toProc[p]);
      } else {
        forall i, j | 0 <= i < |c.procs[q]| && 0 <= j < |vs| ensures c.procs[q][i].uid != vs[j].uid {
          assert vs[j].uid == c.procs[p][j].uid;
        }
        ReadyOther(c.procs[q], c.step, s.bus, q, s.procs[q], s.toBus[q], s.toProc[q], p, vs);
      }
    }
    ReadyOwn(c.procs[p], c.step, s.bus, p, s.procs[p], s.toBus[p], s.toProc[p]);
    TakesReadyBus(c, s, p);
  }

  lemma {:induction false} ReadyPhase(slots: seq<Slot>, step: real, b: Bus, p: nat, x: Proc, tb: seq<ToBus>,
                                      tp: seq<ToProc>)
    requires Core(slots, step, b, p, x, tb, tp) && tb != [] && tb[0].Ready?
    ensures !x.phase.Connecting? && !x.phase.Indexing?
  {}

  /** With all counts complete, every process has answered. */
  lemma {:induction false} AllAnswered(c: Config, b: Bus)
    requires c.Valid() && BusCore(c, b) && ModelsReady(c, b)
    ensures forall q, i | 0 <= q < |c.procs| && 0 <= i < |c.procs[q]| ::
              c.procs[q][i].ch < |b.rdy| && c.procs[q][i].uid in b.rdy[c.procs[q][i].ch]
  {
    ReadyMeansAll(c, b);
    forall q, i | 0 <= q < |c.procs| && 0 <= i < |c.procs[q]|
      ensures c.procs[q][i].ch < |b.rdy| && c.procs[q][i].uid in b.rdy[c.procs[q][i].ch]
    {
      SlotIsMember(c, q, i);
    }
  }

  lemma {:induction false} ResolvedBus(c: Config, b: Bus)
    requires c.Valid() && BusCore(c, b)
    ensures BusInv(c, Resolved(b, c.step))
  {
    hide Resolve;
    var r := Resolved(b, c.step);
    assert BusCore(c, r);
    MissingModel(c, r, 0, 0);
  }

  lemma {:induction false} TakesReady(c: Config, s: State, p: nat)
    requires Inv(c, s) && p < |s.procs| && s.toBus[p] != [] && s.toBus[p][0].Ready?
    ensures Inv(c, BusStep(c, s, p))
  {
    hide Core, BusCore, Readied, Resolved, StartOf, NetworkReady, ModelsReady, Served, FromSlot, PhaseOk;
    assert FromSlot(c.procs[p], s.toBus[p][0]);
    ReadiedAll(c, s, p);
    var vs, r := s.toBus[p][0].vectors, BusStep(c, s, p);
    var b := Readied(s.bus, p, vs);
    CoreSizes(c, b);
    CoreSizes(c, s.bus);
    if NetworkReady(c, b) && ModelsReady(c, b) {
      AllAnswered(c, b);
      ResolvedBus(c, b);
      CoreSizes(c, Resolved(b, c.step));
      CoreTime(c, b);
      forall q | 0 <= q < |s.procs|
        ensures ProcInv(c.procs[q], c.step, r.bus, q, r.procs[q], r.toBus[q], r.toProc[q])
      {
        ResolveKeeps(c.procs[q], c.step, b, q, s.procs[q], r.toBus[q], s.toProc[q]);
      }
    }
    hide ProcInv;
    assert Shape(c, r);
  }

  lemma {:induction false} CoreSizes(c: Config, b: Bus)
    requires BusCore(c, b)
    ensures |b.reg| == |b.rdy| == c.channels
  {}

  lemma {:induction false} CoreTime(c: Config, b: Bus)
    requires BusCore(c, b)
    ensures b.time == BusTime(|b.rounds|, c.step)
  {}

  lemma {:induction false} StepKeeps(c: Config, s: State, a: Action)
    requires Inv(c, s) && Enabled(c, s, a)
    ensures Inv(c, Step(c, s, a))
  {
    hide Inv, BusStep;
    InvShape(c, s);
    if a.BusTakes? {
      match s.toBus[a.p][0]
      case Register(_, _, _) => TakesRegister(c, s, a.p);
      case Index(_, _, _, _) => TakesIndex(c, s, a.p);
      case Ready(_) => TakesReady(c, s, a.p);
      case Exit(_, _) => TakesExit(c, s, a.p);
    } else {
      LocalStepKeeps(c, s, a);
    }
  }

  lemma {:induction false} InvShape(c: Config, s: State)
    requires Inv(c, s)
    ensures c.Valid() && Shape(c, s)
  {}

  lemma {:induction false} NewKeeps(slots: seq<Slot>, step: real, b: Bus, p: nat)
    requires slots != [] && |b.reg| == |b.rdy| && forall i | 0 <= i < |slots| :: slots[i].ch < |b.reg|
    requires (forall ch | 0 <= ch < |b.reg| :: b.reg[ch] == b.rdy[ch] == {}) && b.entries == [] && b.rounds == []
        && b.left == {}
    ensures var t := NewProc(slots);
            && ProcInv(slots, step, b, p, t.proc, t.sent, []) && |t.proc.cells| == |slots|
            && |t.sent| == 1 && FromSlot(slots, t.sent[0])
  {
    var t := NewProc(slots);
    var m := t.sent[0];
    assert t.sent == [m];
    ReadiesNone(t.sent);
    assert Asked(slots[0], t.sent);
    assert m in t.sent;
  }

  lemma {:induction false} InitKeeps(c: Config)
    requires c.Valid()
    ensures Inv(c, Init(c))
  {
    hide NewProc, ProcInv, FromSlot;
    var s := Init(c);
    forall p | 0 <= p < |c.procs|
      ensures ProcInv(c.procs[p], c.step, s.bus, p, s.procs[p], s.toBus[p], s.toProc[p])
      ensures |s.procs[p].cells| == |c.procs[p]| && |s.toBus[p]| == 1 && FromSlot(c.procs[p], s.toBus[p][0])
      ensures PhaseOk(c.procs[p], s.procs[p])
    {
      NewKeeps(c.procs[p], c.step, s.bus, p);
      InvPhase(c.procs[p], c.step, s.bus, p, s.procs[p], s.toBus[p], s.toProc[p]);
    }
    assert BusCore(c, s.bus);
    MissingModel(c, s.bus, 0, 0);
    hide PhaseOk;
    assert Shape(c, s);
  }

  lemma {:induction false} InvPhase(slots: seq<Slot>, step: real, b: Bus, p: nat, x: Proc, tb: seq<ToBus>,
                                    tp: seq<ToProc>)
    requires ProcInv(slots, step, b, p, x, tb, tp)
    ensures PhaseOk(slots, x)
  {}

  lemma {:induction false} TraceKeeps(c: Config, acts: seq<Action>, states: seq<State>, n: nat)
    requires Trace(c, acts, states) && n <= |acts|
    ensures Inv(c, states[n])
  {
    hide Inv, Step, Enabled;
    if n == 0 {
      InitKeeps(c);
    } else {
      TraceKeeps(c, acts, states, n - 1);
      StepKeeps(c, states[n - 1], acts[n - 1]);
    }
  }

  // ---- What follows for every run ----

  /** Nobody runs ahead of the bus, nobody falls behind by more than the Ready that is awaited. */
  lemma {:induction false} LockStepSafety(c: Config, acts: seq<Action>, states: seq<State>, n: nat, p: nat)
    requires Trace(c, acts, states) && n <= |acts| && p < |c.procs|
    ensures var s := states[n];
            p < |s.procs| && s.procs[p].started <= |s.bus.rounds| <= s.procs[p].readied <= s.procs[p].started + 1
  {
    var s := states[n];
    hide Trace;
    TraceKeeps(c, acts, states, n);
    assert ProcInv(c.procs[p], c.step, s.bus, p, s.procs[p], s.toBus[p], s.toProc[p]);
  }

  lemma {:induction false} BusTimeProduct(n: nat, step: real)
    ensures BusTime(n, step) == (n - 1) as real * step
  {
    if n == 0 {
      assert (0 - 1) as real * step == 0.0 - step;
    } else {
      BusTimeProduct(n - 1, step);
      assert (n - 1) as real * step == (n - 2) as real * step + step by {
        assert (n - 1) as real == (n - 2) as real + 1.0;
        assert ((n - 2) as real + 1.0) * step == (n - 2) as real * step + step;
      }
    }
  }

  /** The k-th Start that a process takes is that of cycle k, from (k - 1) steps to k steps. */
  lemma {:induction false} StartTimes(c: Config, acts: seq<Action>, states: seq<State>, n: nat, p: nat)
    requires Trace(c, acts, states) && n < |acts| && acts[n] == ProcTakes(p) && p < |c.procs|
    requires |states[n].procs| == |states[n].toProc| == |c.procs|
    requires states[n].procs[p].phase.Waiting? && states[n].toProc[p] != [] && states[n].toProc[p][0].Start?
    ensures p < |states[n + 1].procs|
    ensures var x := states[n + 1].procs[p];
            && x.phase.Running? && x.started == |states[n].bus.rounds|
            && x.time == (x.started - 1) as real * c.step && x.stop == x.time + c.step
  {
    hide Core, NotifiedAll, BusInv, Served, FromSlot, BusStep;
    TraceKeeps(c, acts, states, n);
    var s := states[n];
    assert states[n + 1] == Step(c, s, acts[n]);
    assert ProcInv(c.procs[p], c.step, s.bus, p, s.procs[p], s.toBus[p], s.toProc[p]);
    StartInFlight(c.procs[p], c.step, s.bus, p, s.procs[p], s.toBus[p], s.toProc[p], 0);
    BusTimeProduct(|s.bus.rounds|, c.step);
  }

  /** The time of a process's models: that of its last Start while they step, and its stop time once they have. */
  ghost predicate TimeOk(x: Proc, step: real) {
    !x.phase.Gone? ==>
      && x.stop == x.started as real * step
      && x.time == (if x.readied > x.started || x.started == 0 then x.started else x.started - 1) as real * step
  }

  lemma {:induction false} OwnTime(slots: seq<Slot>, x: Proc, step: real, a: Action, y: Proc)
    requires PhaseOk(slots, x) && TimeOk(x, step)
    requires y.started == x.started && y.stop == x.stop
    requires if a.SendsReady? then x.phase.Running? && y.readied == x.readied + 1 && y.time == x.stop
             else y.readied == x.readied && y.time == x.time && (x.phase.Gone? ==> y.phase.Gone?)
    ensures TimeOk(y, step)
  {}

  lemma {:induction false} ActsOnTime(c: Config, s: State, a: Action, p: nat)
    requires Shape(c, s) && Enabled(c, s, a) && p < |c.procs| && TimeOk(s.procs[p], c.step)
    requires !(a == ProcTakes(p) && s.procs[p].phase.Waiting? && s.toProc[p][0].Start?)
    ensures |Step(c, s, a).procs| == |c.procs| && TimeOk(Step(c, s, a).procs[p], c.step)
  {
    hide FromSlot, TimeOk, NotifiedAll, SteppedAll, EncodedAll, Readied, Resolved, Registers, Exits, NetworkReady,
        ModelsReady;
    assert PhaseOk(c.procs[p], s.procs[p]);
    if a.p == p && !a.BusTakes? {
      OwnTime(c.procs[p], s.procs[p], c.step, a, Step(c, s, a).procs[p]);
    }
  }

  /** Over any run, after k Starts and Readies the models are at k steps, and between them one step before. */
  lemma {:induction false} ModelTimes(c: Config, acts: seq<Action>, states: seq<State>, n: nat, p: nat)
    requires Trace(c, acts, states) && n <= |acts| && p < |c.procs|
    ensures |states[n].procs| == |c.procs| && TimeOk(states[n].procs[p], c.step)
  {
    hide Inv, Enabled, TimeOk, Step, Shape;
    if n == 0 {
      NewTime(c.procs[p], c.step);
    } else {
      ModelTimes(c, acts, states, n - 1, p);
      TraceKeeps(c, acts, states, n - 1);
      StepTime(c, acts, states, n - 1, p, states[n - 1], states[n]);
    }
  }

  lemma {:induction false} StepTime(c: Config, acts: seq<Action>, states: seq<State>, n: nat, p: nat, s: State,
                                    r: State)
    requires Trace(c, acts, states) && n < |acts| && p < |c.procs| && n + 1 < |states|
    requires s == states[n] && r == states[n + 1] && Inv(c, s) && Shape(c, s) && Enabled(c, s, acts[n])
    requires r == Step(c, s, acts[n]) && TimeOk(s.procs[p], c.step)
    ensures |r.procs| == |c.procs| && TimeOk(r.procs[p], c.step)
  {
    hide Trace, Inv, TimeOk, Step, PhaseOk, FromSlot;
    var a := acts[n];
    if a == ProcTakes(p) && s.procs[p].phase.Waiting? && s.toProc[p][0].Start? {
      StartTimes(c, acts, states, n, p);
      StartTaken(c, s, p);
      StartedTime(s.procs[p], r.procs[p], c.step);
    } else {
      ActsOnTime(c, s, a, p);
    }
  }

  lemma {:induction false} NewTime(slots: seq<Slot>, step: real)
    requires slots != []
    ensures TimeOk(NewProc(slots).proc, step)
  {}

  lemma {:induction false} StartTaken(c: Config, s: State, p: nat)
    requires Shape(c, s) && p < |c.procs| && Enabled(c, s, ProcTakes(p))
    requires s.procs[p].phase.Waiting? && s.toProc[p][0].Start?
    ensures |Step(c, s, ProcTakes(p)).procs| == |c.procs|
    ensures var x, y := s.procs[p], Step(c, s, ProcTakes(p)).procs[p];
            y.phase.Running? && y.started == x.started + 1 && y.readied == x.readied == y.started
  {
    hide FromSlot, NotifiedAll;
    assert PhaseOk(c.procs[p], s.procs[p]);
  }

  lemma {:induction false} StartedTime(x: Proc, y: Proc, step: real)
    requires y.phase.Running? && y.started == x.started + 1 && y.readied == y.started
    requires y.time == (y.started - 1) as real * step && y.stop == y.time + step
    ensures TimeOk(y, step)
  {
    assert y.started as real == (y.started - 1) as real + 1.0;
    assert ((y.started - 1) as real + 1.0) * step == (y.started - 1) as real * step + step;
  }

  /** A Start in flight is the only one, and that of the last cycle. */
  lemma {:induction false} StartInFlight(slots: seq<Slot>, step: real, b: Bus, p: nat, x: Proc, tb: seq<ToBus>,
                                         tp: seq<ToProc>, i: nat)
    requires Core(slots, step, b, p, x, tb, tp) && i < |tp| && tp[i].Start?
    ensures x.started + 1 == |b.rounds| && Starts(tp) == 1
    ensures tp[i].time == BusTime(|b.rounds|, step) && tp[i].stop == tp[i].time + step
  {
    StartsNone(tp);
  }

  /** No Start is ever in flight to a process that waits for an ACK: discarding loses none. */
  lemma {:induction false} NoStartDropped(c: Config, acts: seq<Action>, states: seq<State>, n: nat, p: nat, i: nat)
    requires Trace(c, acts, states) && n <= |acts| && p < |c.procs|
    requires |states[n].procs| == |states[n].toProc| == |c.procs| && i < |states[n].toProc[p]|
    requires states[n].procs[p].phase.Connecting? || states[n].procs[p].phase.Indexing?
    ensures !states[n].toProc[p][i].Start?
  {
    var s := states[n];
    hide Trace;
    TraceKeeps(c, acts, states, n);
    assert ProcInv(c.procs[p], c.step, s.bus, p, s.procs[p], s.toBus[p], s.toProc[p]);
    NoStartYet(c.procs[p], c.step, s.bus, p, s.procs[p], s.toBus[p], s.toProc[p]);
  }

  /** Registering again changes nothing on the bus; it is only acknowledged again. */
  lemma {:induction false} RegisterAgain(c: Config, s: State, p: nat)
    requires Inv(c, s) && p < |c.procs| && s.toBus[p] != [] && s.toBus[p][0].Register?
    requires var m := s.toBus[p][0]; m.ch < |s.bus.reg| && m.uid in s.bus.reg[m.ch]
    ensures BusStep(c, s, p).bus == s.bus
  {
    hide Core, BusInv, ProcInv, PhaseOk;
    var m := s.toBus[p][0];
    assert FromSlot(c.procs[p], m);
    assert ProcInv(c.procs[p], c.step, s.bus, p, s.procs[p], s.toBus[p], s.toProc[p]);
    AlreadyKnown(c.procs[p], c.step, s.bus, p, s.procs[p], s.toBus[p], s.toProc[p], m);
    SameRegister(s.bus, p, m.uid, m.ch);
  }

  lemma {:induction false} SameRegister(b: Bus, p: nat, uid: nat, ch: nat)
    requires ch < |b.reg| && uid in b.reg[ch] && p in b.known
    ensures Registers(b, p, uid, ch) == b
  {
    assert b.reg[ch] + {uid} == b.reg[ch] && b.known + {p} == b.known;
    assert b.reg[ch := b.reg[ch]] == b.reg;
  }

  lemma {:induction false} AlreadyKnown(slots: seq<Slot>, step: real, b: Bus, p: nat, x: Proc, tb: seq<ToBus>,
                                        tp: seq<ToProc>, m: ToBus)
    requires ProcInv(slots, step, b, p, x, tb, tp) && m.Register? && FromSlot(slots, m) && m.ch < |b.reg|
        && m.uid in b.reg[m.ch]
    ensures p in b.known
  {}

  predicate Quiet(s: State, p: nat)
    requires p < |s.procs| == |s.toBus| == |s.toProc|
  {
    s.toBus[p] == [] && s.toProc[p] == [] && !s.procs[p].phase.Running?
  }

  /** A process that is not quiet, or the bus for it, can act. */
  lemma {:induction false} Lively(c: Config, s: State, p: nat)
    requires Shape(c, s) && p < |c.procs| && !s.procs[p].phase.Gone? && !s.bus.exit && !Quiet(s, p)
    ensures exists a :: Enabled(c, s, a) && (a.BusTakes? || a.ProcTakes? || a.SendsReady?)
  {
    hide PhaseOk, FromSlot;
    var k := |c.procs[p]|;
    var a := if s.toBus[p] != [] then BusTakes(p)
             else if s.procs[p].phase.Running? then SendsReady(p, seq(k, i => map[]), seq(k, i => map[]))
             else ProcTakes(p);
    assert Enabled(c, s, a);
  }

  /** Not everybody can be quiet: then everybody would have answered, and the cycle would have ended. */
  lemma {:induction false} NotAllQuiet(c: Config, s: State) returns (p: nat)
    requires Inv(c, s) && forall p | 0 <= p < |c.procs| :: !s.procs[p].phase.Gone?
    ensures p < |c.procs| && !s.bus.exit && !Quiet(s, p)
  {
    hide ProcInv, BusInv, Core, PhaseOk, FromSlot;
    if s.bus.exit {
      NotLeft(c, s);
    }
    if forall p | 0 <= p < |c.procs| :: Quiet(s, p) {
      forall p | 0 <= p < |c.procs| ensures EmptyAnswered(c.procs[p], s.bus) {
        assert ProcInv(c.procs[p], c.step, s.bus, p, s.procs[p], s.toBus[p], s.toProc[p]);
        assert Quiet(s, p);
        Emptied(c.procs[p], c.step, s.bus, p, s.procs[p]);
      }
      NotBoth(c, s.bus);
      AllIn(c, s.bus);
    }
    p :| 0 <= p < |c.procs| && !Quiet(s, p);
  }

  /** Deadlock freedom: without exits something other than a timeout can always happen. */
  lemma {:induction false} NeverStalls(c: Config, acts: seq<Action>, states: seq<State>, n: nat)
    requires Trace(c, acts, states) && n <= |acts|
    requires forall x | x in states[n].procs :: !x.phase.Gone?
    ensures Shape(c, states[n])
    ensures exists a :: Enabled(c, states[n], a) && (a.BusTakes? || a.ProcTakes? || a.SendsReady?)
  {
    TraceKeeps(c, acts, states, n);
    InvShape(c, states[n]);
    hide Trace, Inv, Quiet;
    var p := NotAllQuiet(c, states[n]);
    Lively(c, states[n], p);
  }

  lemma {:induction false} NotBoth(c: Config, b: Bus)
    requires BusInv(c, b)
    ensures BusCore(c, b) && !(NetworkReady(c, b) && ModelsReady(c, b))
  {}

  lemma {:induction false} NotLeft(c: Config, s: State)
    requires Inv(c, s) && s.bus.exit
    ensures exists p :: 0 <= p < |c.procs| && s.procs[p].phase.Gone?
  {
    hide Turnout, InOrder, Timed, Served;
    var p :| p in s.bus.left;
    assert ProcInv(c.procs[p], c.step, s.bus, p, s.procs[p], s.toBus[p], s.toProc[p]);
  }

  ghost predicate EmptyAnswered(slots: seq<Slot>, b: Bus) {
    forall i | 0 <= i < |slots| :: slots[i].ch < |b.reg| == |b.rdy|
                                   && slots[i].uid in b.reg[slots[i].ch] && slots[i].uid in b.rdy[slots[i].ch]
  }

  lemma {:induction false} Emptied(slots: seq<Slot>, step: real, b: Bus, p: nat, x: Proc)
    requires ProcInv(slots, step, b, p, x, [], []) && !x.phase.Gone? && !x.phase.Running?
    ensures EmptyAnswered(slots, b)
  {}

  lemma {:induction false} AllIn(c: Config, b: Bus)
    requires c.Valid() && BusCore(c, b) && forall p | 0 <= p < |c.procs| :: EmptyAnswered(c.procs[p], b)
    ensures NetworkReady(c, b) && ModelsReady(c, b)
  {
    ReadyMeansAll(c, b);
    forall ch | 0 <= ch < c.channels ensures b.reg[ch] == c.Members(ch) && b.rdy[ch] == c.Members(ch) {
      forall uid | uid in c.Members(ch) ensures uid in b.reg[ch] && uid in b.rdy[ch] {
        var p, i :| 0 <= p < |c.procs| && 0 <= i < |c.procs[p]| && c.procs[p][i].ch == ch && c.procs[p][i].uid == uid;
        assert EmptyAnswered(c.procs[p], b);
      }
    }
  }

  // ---- After an exit ----

  lemma {:induction false} LeftBlocks(c: Config, s: State, a: Action)
    requires Inv(c, s) && Enabled(c, s, a) && s.bus.left != {}
    ensures var r := Step(c, s, a); r.bus.left >= s.bus.left && r.bus.rounds == s.bus.rounds
  {
    hide WriteAll, Indexed, Taken, TimedOut, SentReady, ProcInv, NetworkReady, ModelsReady, BusCore, FromSlot, PhaseOk;
    if a.BusTakes? && s.toBus[a.p][0].Ready? {
      var q :| q in s.bus.left;
      LeftMissing(c, s, q);
      assert FromSlot(c.procs[a.p], s.toBus[a.p][0]);
      ReadiedAll(c, s, a.p);
      var b := Readied(s.bus, a.p, s.toBus[a.p][0].vectors);
      var i :| 0 <= i < |c.procs[q]| && c.procs[q][i].ch < |b.reg| && c.procs[q][i].uid !in b.reg[c.procs[q][i].ch];
      MissingModel(c, b, q, i);
    }
  }

  lemma {:induction false} LeftMissing(c: Config, s: State, q: nat)
    requires Inv(c, s) && q in s.bus.left
    ensures q < |c.procs|
    ensures exists i ::
              && 0 <= i < |c.procs[q]| && c.procs[q][i].ch < |s.bus.reg|
              && c.procs[q][i].uid !in s.bus.reg[c.procs[q][i].ch]
  {
    hide Turnout, InOrder, Timed, Served;
    assert ProcInv(c.procs[q], c.step, s.bus, q, s.procs[q], s.toBus[q], s.toProc[q]);
  }

  /** Once an exit is taken, no further cycle is started, whatever happens. */
  lemma {:induction false} NoStartAfterExit(c: Config, acts: seq<Action>, states: seq<State>, m: nat, n: nat)
    requires Trace(c, acts, states) && m <= n <= |acts| && states[m].bus.left != {}
    ensures states[n].bus.rounds == states[m].bus.rounds && states[n].bus.left >= states[m].bus.left
  {
    hide Inv, Step, Enabled;
    if m < n {
      NoStartAfterExit(c, acts, states, m, n - 1);
      TraceKeeps(c, acts, states, n - 1);
      LeftBlocks(c, states[n - 1], acts[n - 1]);
    }
  }

  // ---- Closed rounds ----

  /** Every process, once. */
  ghost predicate Full(c: Config, es: seq<Entry>) {
    && (forall i, j | 0 <= i < j < |es| :: es[i].proc != es[j].proc)
    && (forall p | 0 <= p < |c.procs| :: InEntries(es, p))
    && (forall i | 0 <= i < |es| :: es[i].proc < |c.procs|)
  }

  lemma {:induction false} RoundClosed(c: Config, s: State, a: Action)
    requires Inv(c, s) && Enabled(c, s, a)
    ensures var r := Step(c, s, a);
            || r.bus.rounds == s.bus.rounds
            || (exists es :: Full(c, es) && r.bus.rounds == s.bus.rounds + [es])
  {
    hide WriteAll, Indexed, Taken, TimedOut, SentReady, ProcInv, NetworkReady, ModelsReady, BusCore, FromSlot,
        PhaseOk, Full;
    if a.BusTakes? && s.toBus[a.p][0].Ready? {
      assert FromSlot(c.procs[a.p], s.toBus[a.p][0]);
      ReadiedAll(c, s, a.p);
      var b := Readied(s.bus, a.p, s.toBus[a.p][0].vectors);
      CoreSizes(c, b);
      if NetworkReady(c, b) && ModelsReady(c, b) {
        AllAnswered(c, b);
        forall q | 0 <= q < |c.procs| ensures InEntries(b.entries, q) {
          var tb := if q == a.p then s.toBus[q][1..] else s.toBus[q];
          assert ProcInv(c.procs[q], c.step, b, q, s.procs[q], tb, s.toProc[q]);
          AnsweredEntry(c.procs[q], c.step, b, q, s.procs[q], tb, s.toProc[q]);
        }
        FullEntries(c, b);
      }
    }
  }

  lemma {:induction false} AnsweredEntry(slots: seq<Slot>, step: real, b: Bus, p: nat, x: Proc, tb: seq<ToBus>,
                                         tp: seq<ToProc>)
    requires ProcInv(slots, step, b, p, x, tb, tp) && slots != [] && slots[0].ch < |b.rdy|
        && slots[0].uid in b.rdy[slots[0].ch]
    ensures InEntries(b.entries, p)
  {}

  lemma {:induction false} FullEntries(c: Config, b: Bus)
    requires BusCore(c, b) && forall q | 0 <= q < |c.procs| :: InEntries(b.entries, q)
    ensures Full(c, b.entries)
  {}

  /** Each cycle is made of exactly one Ready of every process. */
  lemma {:induction false} RoundsFull(c: Config, acts: seq<Action>, states: seq<State>, n: nat, k: nat)
    requires Trace(c, acts, states) && n <= |acts| && k < |states[n].bus.rounds|
    ensures Full(c, states[n].bus.rounds[k])
  {
    hide Inv, Step, Enabled, Full;
    if n > 0 {
      TraceKeeps(c, acts, states, n - 1);
      RoundClosed(c, states[n - 1], acts[n - 1]);
      if k < |states[n - 1].bus.rounds| {
        RoundsFull(c, acts, states, n - 1, k);
      }
    }
  }
}
