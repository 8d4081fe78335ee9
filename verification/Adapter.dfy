/** A model's side of the message bus: encoding its writes, and taking what a Start delivers. */
module Adapter {
  import opened BusData
  import opened ChannelIndex
  import opened LockStep
  import opened SimBus

  class AdapterModel {
    const uid: nat
    const channels: seq<Channel>
    /** The bus channel of each channel. */
    const ids: seq<nat>
    var modelTime: real
    var stopTime: real

    ghost predicate Valid()
      reads this, channels
    {
      && |ids| == |channels|
      && (forall i, j | 0 <= i < j < |channels| :: channels[i] != channels[j] && ids[i] != ids[j])
      && (forall i | 0 <= i < |channels| :: channels[i].Valid() && channels[i].indexed)
    }

    ghost function Sigs(): (r: seq<map<nat, Sv>>)
      reads channels
      ensures |r| == |channels| && forall i | 0 <= i < |r| :: r[i] == channels[i].Signals()
    {
      seq(|channels|, i requires 0 <= i < |channels| reads channels => channels[i].Signals())
    }

    constructor (modelUid: nat, chs: seq<Channel>, busIds: seq<nat>)
      requires |busIds| == |chs|
      requires forall i, j | 0 <= i < j < |chs| :: chs[i] != chs[j] && busIds[i] != busIds[j]
      requires forall i | 0 <= i < |chs| :: chs[i].Valid() && chs[i].indexed
      ensures Valid() && uid == modelUid && channels == chs && ids == busIds
    {
      uid, channels, ids := modelUid, chs, busIds;
      modelTime, stopTime := 0.0, 0.0;
    }

    /** The adapter has the values and binaries of these cells of the protocol machine. */
    ghost predicate Has(slots: seq<Slot>, cells: seq<map<nat, Cell>>)
      requires Valid()
      reads this, channels
    {
      && |cells| == |slots| == |channels|
      && forall i | 0 <= i < |slots| :: slots[i].uid == uid && slots[i].ch == ids[i] && Sigs()[i] == SvsOf(cells[i])
    }

    /** The vectors of a Ready are the machine's; the binaries are consumed. */
    method EncodeSv(ghost slots: seq<Slot>, ghost cells: seq<map<nat, Cell>>) returns (ws: seq<Wire>)
      requires Valid() && Has(slots, cells)
      modifies channels
      ensures Valid() && |ws| == |channels| && forall i | 0 <= i < |ws| :: WireOk(ws[i])
      ensures VectorsOf(ws) == LockStep.EncodedAll(slots, cells) && Has(slots, LockStep.Consumed(cells))
    {
      hide SignalsOf, Distinct, Uids, MapOf, Cleared, SvsOf;
      ghost var was := Sigs();
      ws := [];
      for i := 0 to |channels|
        invariant Valid() && |ws| == i
        invariant forall j | 0 <= j < i :: WireOk(ws[j]) && VectorOf(ws[j]) == Outgoing(uid, ids[j], was[j])
        invariant forall j | 0 <= j < |channels| :: channels[j].Signals() == if j < i then Cleared(was[j]) else was[j]
      {
        var w := EncodeChannel(i);
        ws := ws + [w];
      }
      forall i | 0 <= i < |channels|
        ensures VectorsOf(ws)[i] == LockStep.EncodedAll(slots, cells)[i]
        ensures Sigs()[i] == SvsOf(LockStep.Consumed(cells)[i])
      {
        EncodedByMachine(slots, cells, i);
      }
      assert VectorsOf(ws) == LockStep.EncodedAll(slots, cells);
    }

    method EncodeChannel(i: nat) returns (w: Wire)
      requires Valid() && i < |channels|
      modifies channels[i]
      ensures Valid() && WireOk(w) && VectorOf(w) == Outgoing(uid, ids[i], old(channels[i].Signals()))
      ensures channels[i].Signals() == Cleared(old(channels[i].Signals()))
      ensures forall j | 0 <= j < |channels| && j != i :: channels[j].Signals() == old(channels[j].Signals())
    {
      hide SignalsOf, Distinct, Uids, MapOf;
      var scalars, bins := channels[i].Encode();
      w := Wire(uid, ids[i], scalars, bins);
      channels[i].ClearBins();
      forall j | 0 <= j < |channels| && j != i ensures channels[j].Signals() == old(channels[j].Signals()) {
        assert channels[j] != channels[i];
      }
    }

    /** A Start: times are taken over, and each channel takes its values and binaries, as the machine's cells do. */
    method NotifyModel(n: Notify, ghost slots: seq<Slot>, ghost cells: seq<map<nat, Cell>>)
      requires Valid() && NotifyOk(n) && Has(slots, cells)
      modifies this`modelTime, this`stopTime, channels
      ensures Valid() && modelTime == n.time && stopTime == n.stop && |cells| == |slots| == |channels|
      ensures forall i | 0 <= i < |channels| :: Sigs()[i] == Received(old(Sigs())[i], StartIn(n).delta, ids[i])
      ensures forall i | 0 <= i < |channels| ::
                NotifiedAll(slots, cells, StartIn(n).delta)[i] == ToModel(cells[i], Sigs()[i])
    {
      hide SignalsOf, Distinct, Uids, MapOf, DeltaIn, Received, SvsOf, NotifiedAll, ToModel;
      ghost var was, d := Sigs(), StartIn(n).delta;
      modelTime, stopTime := n.time, n.stop;
      for ch := 0 to |n.wires|
        invariant Valid() && modelTime == n.time && stopTime == n.stop && NotifiedUpTo(was, d, ch)
      {
        NotifyChannel(n, ch, was);
      }
      AllNotified(n, was, slots, cells);
    }

    lemma {:induction false} AllNotified(n: Notify, was: seq<map<nat, Sv>>, slots: seq<Slot>,
                                         cells: seq<map<nat, Cell>>)
      requires Valid() && NotifiedUpTo(was, StartIn(n).delta, |n.wires|) && |cells| == |slots| == |channels|
      requires forall i | 0 <= i < |slots| :: slots[i].uid == uid && slots[i].ch == ids[i] && was[i] == SvsOf(cells[i])
      ensures forall i | 0 <= i < |channels| :: Sigs()[i] == Received(was[i], StartIn(n).delta, ids[i])
      ensures forall i | 0 <= i < |channels| ::
                NotifiedAll(slots, cells, StartIn(n).delta)[i] == ToModel(cells[i], Sigs()[i])
    {
      hide SignalsOf, Distinct, Uids, MapOf, DeltaIn, Received, SvsOf, ToModel, NotifiedAll;
      forall i | 0 <= i < |channels|
        ensures Sigs()[i] == Received(was[i], StartIn(n).delta, ids[i])
        ensures NotifiedAll(slots, cells, StartIn(n).delta)[i] == ToModel(cells[i], Sigs()[i])
      {
        if ids[i] >= |n.wires| {
          NotReceived(was[i], n, ids[i]);
        }
        NotifiedByMachine(slots, cells, StartIn(n).delta, i);
      }
    }

    /** The vectors before ch are taken. */
    ghost predicate NotifiedUpTo(was: seq<map<nat, Sv>>, d: Delta, ch: nat)
      requires Valid()
      reads this, channels
    {
      && |was| == |channels|
      && forall j | 0 <= j < |channels| ::
           channels[j].Signals() == if ids[j] < ch then Received(was[j], d, ids[j]) else was[j]
    }

    method NotifyChannel(n: Notify, ch: nat, ghost was: seq<map<nat, Sv>>)
      requires Valid() && NotifyOk(n) && ch < |n.wires| && NotifiedUpTo(was, StartIn(n).delta, ch)
      modifies channels
      ensures Valid() && NotifiedUpTo(was, StartIn(n).delta, ch + 1)
    {
      hide SignalsOf, Distinct, Uids, MapOf, DeltaIn, Received;
      var i := 0;
      while i < |channels| && ids[i] != ch
        invariant i <= |channels| && forall j | 0 <= j < i :: ids[j] != ch
      {
        i := i + 1;
      }
      if i < |channels| {
        assert n.wires[ch].ch == ch && WireOk(n.wires[ch]);
        ReceivedWire(was[i], n, ch);
        TakeVector(i, n.wires[ch]);
        forall j | 0 <= j < |channels| && j != i ensures ids[j] != ch {}
      }
    }

    method TakeVector(i: nat, w: Wire)
      requires Valid() && i < |channels| && WireOk(w)
      modifies channels[i]
      ensures Valid()
      ensures channels[i].Signals() == ValSetAll(AppendedAll(old(channels[i].Signals()), w.bins), w.scalars)
      ensures forall j | 0 <= j < |channels| && j != i :: channels[j].Signals() == old(channels[j].Signals())
    {
      hide SignalsOf, Distinct, Uids, AppendedAll, ValSetAll;
      channels[i].AppendBins(w.bins);
      channels[i].SetVals(w.scalars);
      forall j | 0 <= j < |channels| && j != i ensures channels[j].Signals() == old(channels[j].Signals()) {
        assert channels[j] != channels[i];
      }
    }
  }

  function Cleared(m: map<nat, Sv>): map<nat, Sv> {
    map u | u in m :: m[u].(bin := [])
  }

  /** A channel's signals after a Start. */
  function Received(m: map<nat, Sv>, d: Delta, ch: nat): map<nat, Sv> {
    map u | u in m :: Incoming(m[u], d, Key(ch, u))
  }

  lemma {:induction false} DeltaAt(n: Notify, ch: nat, u: nat)
    requires NotifyOk(n) && ch < |n.wires|
    ensures var d, w := StartIn(n).delta, n.wires[ch];
            && (Key(ch, u) in d.scalars <==> u in MapOf(w.scalars)) && (Key(ch, u) in d.bins <==> u in MapOf(w.bins))
            && (u in MapOf(w.scalars) ==> d.scalars[Key(ch, u)] == MapOf(w.scalars)[u])
            && (u in MapOf(w.bins) ==> d.bins[Key(ch, u)] == MapOf(w.bins)[u])
  {
    hide MapOf;
    assert VectorsOf(n.wires)[ch] == VectorOf(n.wires[ch]);
  }

  lemma {:induction false} ReceivedWire(m: map<nat, Sv>, n: Notify, ch: nat)
    requires NotifyOk(n) && ch < |n.wires|
    ensures ValSetAll(AppendedAll(m, n.wires[ch].bins), n.wires[ch].scalars) == Received(m, StartIn(n).delta, ch)
  {
    var w := n.wires[ch];
    assert WireOk(w);
    hide MapOf, AppendedAll, ValSetAll, StartIn, NotifyOk;
    var a, r := AppendedAll(m, w.bins), Received(m, StartIn(n).delta, ch);
    forall u | u in m ensures ValSetAll(a, w.scalars)[u] == r[u] {
      DeltaAt(n, ch, u);
      AppendedMap(m, w.bins, u);
      ValSetMap(a, w.scalars, u);
    }
  }

  lemma {:induction false} NotReceived(m: map<nat, Sv>, n: Notify, ch: nat)
    requires ch >= |n.wires|
    ensures Received(m, StartIn(n).delta, ch) == m
  {}

  /** The adapter's part of a model's cells. */
  function SvsOf(cells: map<nat, Cell>): map<nat, Sv> {
    map x | x in cells :: SvOf(cells[x])
  }

  /** The cells with the adapter's values and binaries m, once these are marshalled to the model. */
  function ToModel(cells: map<nat, Cell>, m: map<nat, Sv>): map<nat, Cell> {
    map x | x in cells && x in m :: MarshalledIn(cells[x].(val := m[x].val, fin := m[x].fin, bin := m[x].bin))
  }

  lemma {:induction false} EncodedByMachine(slots: seq<Slot>, cells: seq<map<nat, Cell>>, i: nat)
    requires |cells| == |slots| && i < |slots|
    ensures LockStep.EncodedAll(slots, cells)[i] == Outgoing(slots[i].uid, slots[i].ch, SvsOf(cells[i]))
    ensures SvsOf(LockStep.Consumed(cells)[i]) == Cleared(SvsOf(cells[i]))
  {
    assert Encoded(slots[i], cells[i]).scalars == Outgoing(slots[i].uid, slots[i].ch, SvsOf(cells[i])).scalars;
  }

  lemma {:induction false} NotifiedByMachine(slots: seq<Slot>, cells: seq<map<nat, Cell>>, d: Delta, i: nat)
    requires |cells| == |slots| && i < |slots|
    ensures NotifiedAll(slots, cells, d)[i] == ToModel(cells[i], Received(SvsOf(cells[i]), d, slots[i].ch))
  {}

  // ---- Waiting for a message ----

  /**
   * Receives messages until one is what the process waits for: an ACK for one of its models with its token while it
   * connects or indexes, a Start after its Ready. All before it are something else, and leave the process as it is.
   * n is the number of messages received.
   */
  method WaitMessage(slots: seq<Slot>, x: Proc, queue: seq<ToProc>) returns (found: bool, n: nat)
    requires Receiving(x) && PhaseOk(slots, x) && |x.cells| == |slots|
    ensures n <= |queue| && (found ==> n > 0) && (!found ==> n == |queue|)
    ensures found ==>
              var m := queue[n - 1];
              if m.Start? then x.phase.Waiting?
              else && (x.phase.Connecting? || x.phase.Indexing?) && m.token == x.token
                   && exists i :: 0 <= i < |slots| && slots[i].uid == m.uid
    ensures forall i | 0 <= i < (if found then n - 1 else n) ::
              var m := queue[i];
              if m.Start? then !x.phase.Waiting?
              else x.phase.Waiting? || m.token != x.token || forall j | 0 <= j < |slots| :: slots[j].uid != m.uid
    ensures found ==> Taken(slots, x, queue[n - 1]) != Turn(x, [])
    ensures forall i | 0 <= i < (if found then n - 1 else n) :: Taken(slots, x, queue[i]) == Turn(x, [])
  {
    found, n := false, 0;
    while n < |queue|
      invariant n <= |queue| && !found && forall i | 0 <= i < n :: Taken(slots, x, queue[i]) == Turn(x, [])
      invariant forall i | 0 <= i < n ::
                  var m := queue[i];
                  if m.Start? then !x.phase.Waiting?
                  else x.phase.Waiting? || m.token != x.token || forall j | 0 <= j < |slots| :: slots[j].uid != m.uid
    {
      var m := queue[n];
      n := n + 1;
      match m {
        case RegisterAck(uid, token) => found := !x.phase.Waiting? && Owns(slots, uid) && token == x.token;
        case IndexAck(uid, token) => found := !x.phase.Waiting? && Owns(slots, uid) && token == x.token;
        case Start(_, _, _) => found := x.phase.Waiting?;
      }
      if found {
        return;
      }
    }
  }
}
