/** Whole runs of a PDU network: which PDUs are sent at which steps, and what becomes of contained ones. */
module PduRuns {
  import opened Binary
  import opened Checksum
  import opened Container
  import opened Fields
  import opened Matrix
  import opened Network

  /** The schedule written out: at every tick without an interval, else from epoch + phase on, every interval ticks. */
  predicate FiresAt(p: Pdu, epoch: int, tick: nat) {
    || p.interval == 0
    || (0 <= epoch + p.phase <= tick && (tick - (epoch + p.phase)) % p.interval == 0)
  }

  /** It is what the scheduling pass follows. */
  lemma {:induction false} DueIs(p: Pdu, epoch: int, tick: nat)
    ensures Due(p, epoch, tick) <==> p.item.dir == Tx && FiresAt(p, epoch, tick)
  {}

  // ---- One PDU through the preparation steps ----

  /** The payload is what its raw values pack to. */
  ghost predicate Settled(n: Net, k: nat)
    requires Valid(n) && k < |n.pdus|
  {
    PackAll(n.payload[k], n.pdus[k].Fields(), RawOf(n, k)) == n.payload[k]
  }

  /** A Tx PDU that carries signals, rather than other PDUs. */
  predicate Carrier(p: Pdu) {
    p.item.dir == Tx && !p.IsContainer()
  }

  lemma {:induction false} ContainerFacts(n: Net, c: nat)
    requires Valid(n) && c < |n.pdus|
    ensures ContainerOk(n.pdus, c)
  {}

  lemma {:induction false} RowOf(n: Net, k: nat, x: nat)
    requires Valid(n) && k < |n.pdus| && n.pdus[k].offset <= x < n.pdus[k].offset + |n.pdus[k].item.signals|
    ensures x < |n.rows| && n.rows[x] == Row(k, x - n.pdus[k].offset, n.pdus[k].item.signals[x - n.pdus[k].offset])
  {
    assert Layout(n.pdus, n.rows);
    hide Valid, ItemOk, ContainerOk, ListOk, AllFit;
    var i := x - n.pdus[k].offset;
    assert n.rows[n.pdus[k].offset + i] == Row(k, i, n.pdus[k].item.signals[i]);
  }

  /** Not due: nothing about the payload moves. Due: it is repacked and stays settled. */
  lemma {:induction false} PreparedPayload(n: Net, k: nat, epoch: int, t: nat)
    requires Valid(n) && k < |n.pdus| && Carrier(n.pdus[k]) && Settled(n, k)
    ensures var r := Prepared(n, epoch, t);
            && Settled(r, k)
            && (!Due(n.pdus[k], epoch, t) ==> r.payload[k] == n.payload[k])
  {
    hide Valid, PackAll, Fires, PayloadHash;
    var s := Scheduled(n, epoch, t);
    var e := Encoded(s);
    var r := Prepared(n, epoch, t);
    PackAllIdempotent(n.payload[k], n.pdus[k].Fields(), RawOf(e, k));
    assert r.raw == e.raw;
    assert RawOf(r, k) == RawOf(e, k);
    if !Due(n.pdus[k], epoch, t) {
      forall x | n.pdus[k].offset <= x < n.pdus[k].offset + |n.pdus[k].item.signals| ensures e.raw[x] == n.raw[x] {
        RowOf(n, k, x);
      }
      assert RawOf(e, k) == RawOf(n, k);
    }
  }

  /** Forced: a periodic schedule with an interval. */
  predicate Forced(p: Pdu) {
    p.interval > 0 && p.item.trigger == Periodic
  }

  /** The checksum a PDU is compared with: cleared when a periodic schedule fires. */
  function Reference(p: Pdu, checksum: nat, epoch: int, t: nat): nat {
    if Due(p, epoch, t) && Forced(p) then 0 else checksum
  }

  lemma {:induction false} PreparedStatus(n: Net, k: nat, epoch: int, t: nat)
    requires Valid(n) && k < |n.pdus| && Carrier(n.pdus[k])
    ensures var r := Prepared(n, epoch, t);
            var p, h, ref := n.pdus[k], PayloadHash(r.payload[k]), Reference(n.pdus[k], n.status[k].checksum, epoch, t);
            && r.status[k].needsTx == (h != ref)
            && r.status[k].checksum == if h != ref && !p.IsContained() then h else ref
  {
    hide Valid, PackAll, Fires, PayloadHash;
    assert Packed(Encoded(Scheduled(n, epoch, t))).status == Scheduled(n, epoch, t).status;
  }

  /** Mapping a container leaves other PDUs alone. */
  lemma {:induction false} MapToElsewhere(n: Net, c: nat, k: nat)
    requires Valid(n) && c < |n.pdus| && k < |n.pdus|
    requires n.pdus[c].IsContainer() ==> c != k && k !in n.pdus[c].list
    ensures MapTo(n, c).payload[k] == n.payload[k] && MapTo(n, c).status[k] == n.status[k]
  {
    hide Valid, Build, ItemOutcome;
  }

  /** No container at positions [lo, hi) lists k or is k. */
  ghost predicate Unlisted(pdus: seq<Pdu>, k: nat, lo: nat, hi: nat)
    requires hi <= |pdus|
  {
    forall c | lo <= c < hi :: pdus[c].IsContainer() ==> c != k && k !in pdus[c].list
  }

  lemma {:induction false} MapUpToElsewhere(n: Net, k: nat, lo: nat, hi: nat)
    requires Valid(n) && k < |n.pdus| && lo <= hi <= |n.pdus| && Unlisted(n.pdus, k, lo, hi)
    ensures MapUpTo(n, hi).payload[k] == MapUpTo(n, lo).payload[k]
    ensures MapUpTo(n, hi).status[k] == MapUpTo(n, lo).status[k]
  {
    hide Valid, MapTo;
    if lo < hi {
      MapUpToElsewhere(n, k, lo, hi - 1);
      MapToElsewhere(MapUpTo(n, hi - 1), hi - 1, k);
    }
  }

  lemma {:induction false} UncontainedUnlisted(n: Net, k: nat)
    requires Valid(n) && k < |n.pdus| && !n.pdus[k].IsContainer() && !n.pdus[k].IsContained()
    ensures Unlisted(n.pdus, k, 0, |n.pdus|)
  {
    forall c | 0 <= c < |n.pdus| && n.pdus[c].IsContainer() ensures k !in n.pdus[c].list {
      ContainerFacts(n, c);
    }
  }

  /** The end of a tick: flags of sent PDUs are cleared, nothing else. */
  lemma {:induction false} TickEnd(n: Net, k: nat, epoch: int, t: nat)
    requires Valid(n) && k < |n.pdus|
    ensures var q, m, r := Prepared(n, epoch, t), ReadyToSend(n, epoch, t), TxStep(n, epoch, t);
            && m == MapUpTo(q, |n.pdus|) && r.payload[k] == m.payload[k]
            && r.status[k] == SentStatus(n.pdus[k], m.status[k]) && RawOf(r, k) == RawOf(q, k)
  {
    hide Valid, Prepared, MapUpTo, SentStatus;
    var q, m, r := Prepared(n, epoch, t), ReadyToSend(n, epoch, t), TxStep(n, epoch, t);
    assert r.raw == q.raw;
  }

  /** From preparation to the end of the tick, an unlisted PDU only has its flag cleared. */
  lemma {:induction false} TickElsewhere(n: Net, k: nat, epoch: int, t: nat)
    requires Valid(n) && k < |n.pdus| && Unlisted(n.pdus, k, 0, |n.pdus|)
    ensures var q, m, r := Prepared(n, epoch, t), ReadyToSend(n, epoch, t), TxStep(n, epoch, t);
            && m.status[k] == q.status[k] && r.status[k].checksum == q.status[k].checksum
            && r.payload[k] == m.payload[k] == q.payload[k] && RawOf(r, k) == RawOf(q, k)
  {
    hide Valid, Prepared, ReadyToSend, TxStep, MapTo;
    TickEnd(n, k, epoch, t);
    MapUpToElsewhere(Prepared(n, epoch, t), k, 0, |n.pdus|);
  }

  // ---- Frames ----

  predicate DistinctTxIds(pdus: seq<Pdu>) {
    forall i, j | 0 <= i < j < |pdus| && pdus[i].item.dir == Tx && pdus[j].item.dir == Tx
                  && !pdus[i].IsContained() && !pdus[j].IsContained() :: pdus[i].item.id != pdus[j].item.id
  }

  lemma {:induction false} FramesAre(n: Net, k: nat, f: Frame)
    requires Valid(n) && k <= |n.pdus|
    ensures f in FramesUpTo(n, k) <==>
            exists i :: 0 <= i < k && Sends(n.pdus[i], n.status[i]) && f == Frame(n.pdus[i].item.id, n.payload[i])
  {
    if k > 0 {
      FramesAre(n, k - 1, f);
      if f in FramesUpTo(n, k - 1) {
        assert f in FramesUpTo(n, k);
      }
    }
  }

  /** The tick emits a frame with the id of PDU k. */
  ghost predicate SentIn(n: Net, epoch: int, t: nat, k: nat)
    requires Valid(n) && k < |n.pdus|
  {
    exists f :: f in TxFrames(n, epoch, t) && f.id == n.pdus[k].item.id
  }

  lemma {:induction false} SentInIffSends(n: Net, epoch: int, t: nat, k: nat)
    requires Valid(n) && k < |n.pdus| && DistinctTxIds(n.pdus) && n.pdus[k].item.dir == Tx && !n.pdus[k].IsContained()
    ensures var m := ReadyToSend(n, epoch, t);
            && (SentIn(n, epoch, t, k) <==> m.status[k].needsTx)
            && forall f :: f in TxFrames(n, epoch, t) && f.id == n.pdus[k].item.id ==> f.payload == m.payload[k]
  {
    hide Valid, ReadyToSend, FramesUpTo;
    var m := ReadyToSend(n, epoch, t);
    forall f ensures f in TxFrames(n, epoch, t) && f.id == n.pdus[k].item.id <==>
                     m.status[k].needsTx && f == Frame(n.pdus[k].item.id, m.payload[k])
    {
      FramesAre(m, |n.pdus|, f);
    }
    if m.status[k].needsTx {
      assert Frame(n.pdus[k].item.id, m.payload[k]) in TxFrames(n, epoch, t);
    }
  }

  // ---- One tick of a standalone PDU ----

  predicate Standalone(p: Pdu) {
    Carrier(p) && !p.IsContained()
  }

  /** Between ticks: settled, and the stored checksum is that of the payload. */
  ghost predicate InStep(n: Net, k: nat)
    requires Valid(n) && k < |n.pdus|
  {
    Settled(n, k) && n.status[k].checksum == PayloadHash(n.payload[k])
  }

  lemma {:induction false} StandaloneTick(n: Net, k: nat, epoch: int, t: nat)
    requires Valid(n) && k < |n.pdus| && Standalone(n.pdus[k]) && InStep(n, k)
    ensures var m, r, p := ReadyToSend(n, epoch, t), TxStep(n, epoch, t), n.pdus[k];
            && InStep(r, k)
            && r.payload[k] == m.payload[k]
            && (!Due(p, epoch, t) ==> r.payload[k] == n.payload[k])
            && (m.status[k].needsTx <==>
                  Due(p, epoch, t) && PayloadHash(r.payload[k]) != (if Forced(p) then 0 else PayloadHash(n.payload[k])))
  {
    hide Valid, Prepared, PayloadHash, PackAll, MapUpTo, ReadyToSend, TxStep, Fires, RawOf;
    PreparedPayload(n, k, epoch, t);
    PreparedStatus(n, k, epoch, t);
    UncontainedUnlisted(Prepared(n, epoch, t), k);
    TickElsewhere(n, k, epoch, t);
  }

  // ---- Runs ----

  /**
   * What comes before a Tx pass: frames arrive, the model writes physical values, the epoch may have been moved.
   * The pass is made at the tick of the simulation time; ticks may be skipped or repeated.
   */
  datatype Input = Input(frames: seq<Frame>, phys: seq<real>, epoch: int, tick: nat)

  ghost predicate InputsFor(n: Net, ins: seq<Input>) {
    forall i | 0 <= i < |ins| :: |ins[i].phys| == |n.rows|
  }

  /** The state in which the Tx pass starts. */
  ghost function Before(n: Net, i: Input): (r: Net)
    requires Valid(n) && |i.phys| == |n.rows|
    ensures Valid(r) && r.pdus == n.pdus && r.rows == n.rows
  {
    RxStep(n, i.frames).(phys := i.phys)
  }

  /** The state after |ins| steps. */
  ghost function After(n: Net, ins: seq<Input>): (r: Net)
    requires Valid(n) && InputsFor(n, ins)
    ensures Valid(r) && r.pdus == n.pdus && r.rows == n.rows
  {
    if ins == [] then n else
    var t := |ins| - 1;
    TxStep(Before(After(n, ins[..t]), ins[t]), ins[t].epoch, ins[t].tick)
  }

  /** The state in which the Tx pass of step t starts. */
  ghost function AtStep(n: Net, ins: seq<Input>, t: nat): (r: Net)
    requires Valid(n) && InputsFor(n, ins) && t < |ins|
    ensures Valid(r) && r.pdus == n.pdus && r.rows == n.rows
  {
    Before(After(n, ins[..t]), ins[t])
  }

  ghost predicate SentAt(n: Net, ins: seq<Input>, k: nat, t: nat)
    requires Valid(n) && InputsFor(n, ins) && t < |ins| && k < |n.pdus|
  {
    SentIn(AtStep(n, ins, t), ins[t].epoch, ins[t].tick, k)
  }

  /** Status and payload of PDU k after the first t steps. */
  ghost function StatusAfter(n: Net, ins: seq<Input>, k: nat, t: nat): Status
    requires Valid(n) && InputsFor(n, ins) && t <= |ins| && k < |n.pdus|
  {
    After(n, ins[..t]).status[k]
  }

  ghost function PayloadAfter(n: Net, ins: seq<Input>, k: nat, t: nat): seq<byte>
    requires Valid(n) && InputsFor(n, ins) && t <= |ins| && k < |n.pdus|
  {
    After(n, ins[..t]).payload[k]
  }

  /** Zero payloads and raw values, checksums taken, flags clear: how a network starts. */
  ghost predicate Initial(n: Net)
    ensures Initial(n) ==> Valid(n)
  {
    && Valid(n)
    && (forall p, i | 0 <= p < |n.pdus| && 0 <= i < |n.payload[p]| :: n.payload[p][i] == 0)
    && (forall x | 0 <= x < |n.rows| :: n.raw[x] == 0)
    && (forall p | 0 <= p < |n.pdus| ::
          !n.status[p].needsTx && (n.pdus[p].item.dir == Tx ==> n.status[p].checksum == PayloadHash(n.payload[p])))
  }

  lemma {:induction false} InitialInStep(n: Net, k: nat)
    requires Initial(n) && k < |n.pdus| && n.pdus[k].item.dir == Tx
    ensures InStep(n, k)
  {
    hide Valid, PackAll, PayloadHash;
    PackZeros(n.payload[k], n.pdus[k].Fields(), RawOf(n, k));
  }

  /** Receiving touches no Tx PDU. */
  lemma {:induction false} RxElsewhere(n: Net, frames: seq<Frame>, k: nat)
    requires Valid(n) && k < |n.pdus| && n.pdus[k].item.dir == Tx
    ensures var r := RxStep(n, frames);
            && r.payload[k] == n.payload[k] && RawOf(r, k) == RawOf(n, k)
            && r.status[k].checksum == n.status[k].checksum && r.status[k].needsTx == n.status[k].needsTx
  {
    hide Valid, ReceivedAll, MapFromUpTo;
    var a := ReceivedAll(n, frames);
    ReceivedElsewhere(n, frames, k);
    MapFromElsewhere(a, |n.pdus|, k);
    var b := MapFromUpTo(a, |n.pdus|);
    var r := RxStep(n, frames);
    assert r.payload == b.payload;
    forall x | n.pdus[k].offset <= x < n.pdus[k].offset + |n.pdus[k].item.signals| ensures r.raw[x] == n.raw[x] {
      RowOf(b, k, x);
    }
    assert RawOf(r, k) == RawOf(n, k);
  }

  lemma {:induction false} ReceivedElsewhere(n: Net, frames: seq<Frame>, k: nat)
    requires Valid(n) && k < |n.pdus| && n.pdus[k].item.dir == Tx
    ensures var r := ReceivedAll(n, frames);
            r.payload[k] == n.payload[k] && r.status[k] == n.status[k] && r.raw == n.raw
  {
    hide Valid;
    if frames != [] {
      ReceivedElsewhere(n, frames[..|frames| - 1], k);
    }
  }

  lemma {:induction false} MapFromElsewhere(n: Net, c: nat, k: nat)
    requires Valid(n) && c <= |n.pdus| && k < |n.pdus| && n.pdus[k].item.dir == Tx
    ensures var r := MapFromUpTo(n, c);
            r.payload[k] == n.payload[k] && r.status == n.status && r.raw == n.raw
  {
    hide Valid, MapFrom;
    if c > 0 {
      MapFromElsewhere(n, c - 1, k);
      MapFromOthers(MapFromUpTo(n, c - 1), c - 1, k);
    }
  }

  lemma {:induction false} MapFromOthers(n: Net, c: nat, k: nat)
    requires Valid(n) && c < |n.pdus| && k < |n.pdus| && n.pdus[k].item.dir == Tx
    ensures var r := MapFrom(n, c);
            r.payload[k] == n.payload[k] && r.status == n.status && r.raw == n.raw
  {
    hide Valid, Parsed, Deliver;
    ContainerFacts(n, c);
  }

  lemma {:induction false} BeforeInStep(n: Net, i: Input, k: nat)
    requires Valid(n) && |i.phys| == |n.rows| && k < |n.pdus| && n.pdus[k].item.dir == Tx
    ensures var r := Before(n, i);
            && r.payload[k] == n.payload[k] && RawOf(r, k) == RawOf(n, k)
            && r.status[k].checksum == n.status[k].checksum
            && r.status[k].needsTx == n.status[k].needsTx
            && Settled(r, k) == Settled(n, k) && InStep(r, k) == InStep(n, k)
  {
    hide Valid, RxStep, PackAll, PayloadHash;
    RxElsewhere(n, i.frames, k);
    assert RawOf(Before(n, i), k) == RawOf(RxStep(n, i.frames), k);
  }

  lemma {:induction false} AfterInStep(n: Net, ins: seq<Input>, k: nat)
    requires Initial(n) && InputsFor(n, ins) && k < |n.pdus| && Standalone(n.pdus[k])
    ensures InStep(After(n, ins), k)
  {
    hide Valid, TxStep, Before, InStep;
    if ins == [] {
      InitialInStep(n, k);
    } else {
      var t := |ins| - 1;
      AfterInStep(n, ins[..t], k);
      BeforeInStep(After(n, ins[..t]), ins[t], k);
      StandaloneTick(AtStep(n, ins, t), k, ins[t].epoch, ins[t].tick);
    }
  }

  /** One step of a run, as the trace theorems use it. */
  lemma {:induction false} TickOfRun(n: Net, ins: seq<Input>, k: nat, t: nat)
    requires Initial(n) && InputsFor(n, ins) && k < |n.pdus| && t < |ins|
    requires Standalone(n.pdus[k]) && DistinctTxIds(n.pdus)
    ensures var p, was, now := n.pdus[k], PayloadAfter(n, ins, k, t), PayloadAfter(n, ins, k, t + 1);
            && (SentAt(n, ins, k, t) <==>
                  Due(p, ins[t].epoch, ins[t].tick) && PayloadHash(now) != (if Forced(p) then 0 else PayloadHash(was)))
            && (!Due(p, ins[t].epoch, ins[t].tick) ==> now == was)
            && forall f ::
                 f in TxFrames(AtStep(n, ins, t), ins[t].epoch, ins[t].tick) && f.id == p.item.id ==> f.payload == now
  {
    hide Valid, Initial, TxStep, TxFrames, Before, InStep, SentIn, ReadyToSend, PayloadHash, Due;
    AfterInStep(n, ins[..t], k);
    BeforeInStep(After(n, ins[..t]), ins[t], k);
    StandaloneTick(AtStep(n, ins, t), k, ins[t].epoch, ins[t].tick);
    SentInIffSends(AtStep(n, ins, t), ins[t].epoch, ins[t].tick, k);
    assert ins[..t + 1][..t] == ins[..t];
  }

  /** A periodic PDU is sent exactly when its schedule fires at the step's tick and its payload does not hash to 0. */
  lemma {:induction false} PeriodicTrace(n: Net, ins: seq<Input>, k: nat, t: nat)
    requires Initial(n) && InputsFor(n, ins) && k < |n.pdus| && t < |ins|
    requires Standalone(n.pdus[k]) && DistinctTxIds(n.pdus) && Forced(n.pdus[k])
    ensures var p := n.pdus[k];
            var base := ins[t].epoch + p.phase;
            SentAt(n, ins, k, t) <==>
            && 0 <= base <= ins[t].tick && (ins[t].tick - base) % p.interval == 0
            && PayloadHash(PayloadAfter(n, ins, k, t + 1)) != 0
  {
    hide Valid, Initial, SentAt, PayloadAfter, PayloadHash, After;
    TickOfRun(n, ins, k, t);
  }

  /** The hash of the payload last sent before step t, or of the initial payload. */
  ghost function LastSentHash(n: Net, ins: seq<Input>, k: nat, t: nat): nat
    requires Valid(n) && InputsFor(n, ins) && t <= |ins| && k < |n.pdus|
  {
    if t == 0 then PayloadHash(n.payload[k])
    else if SentAt(n, ins, k, t - 1) then PayloadHash(PayloadAfter(n, ins, k, t))
    else LastSentHash(n, ins, k, t - 1)
  }

  lemma {:induction false} LastSentIsCurrent(n: Net, ins: seq<Input>, k: nat, t: nat)
    requires Initial(n) && InputsFor(n, ins) && k < |n.pdus| && t <= |ins|
    requires Standalone(n.pdus[k]) && DistinctTxIds(n.pdus) && !Forced(n.pdus[k])
    ensures LastSentHash(n, ins, k, t) == PayloadHash(PayloadAfter(n, ins, k, t))
  {
    hide Valid, Initial, SentAt, PayloadHash, TxStep, Before, Due;
    if t > 0 {
      LastSentIsCurrent(n, ins, k, t - 1);
      TickOfRun(n, ins, k, t - 1);
    }
  }

  /**
   * A change PDU is sent exactly where the payload's hash differs from the last one sent: at any step if it has no
   * interval, otherwise at those whose tick its schedule fires at.
   */
  lemma {:induction false} ChangeTrace(n: Net, ins: seq<Input>, k: nat, t: nat)
    requires Initial(n) && InputsFor(n, ins) && k < |n.pdus| && t < |ins|
    requires Standalone(n.pdus[k]) && DistinctTxIds(n.pdus) && !Forced(n.pdus[k])
    ensures var p, tick := n.pdus[k], ins[t].tick;
            var base := ins[t].epoch + p.phase;
            SentAt(n, ins, k, t) <==>
            && (p.interval == 0 || (0 <= base <= tick && (tick - base) % p.interval == 0))
            && PayloadHash(PayloadAfter(n, ins, k, t + 1)) != LastSentHash(n, ins, k, t)
  {
    hide Valid, Initial, SentAt, PayloadHash, After, PayloadAfter, LastSentHash;
    TickOfRun(n, ins, k, t);
    LastSentIsCurrent(n, ins, k, t);
  }

  /** In particular a payload that differs from the last sent one in one byte is sent at the next due step. */
  lemma {:induction false} OneByteChangeIsSent(n: Net, ins: seq<Input>, k: nat, t: nat, i: nat)
    requires Initial(n) && InputsFor(n, ins) && k < |n.pdus| && t < |ins|
    requires Standalone(n.pdus[k]) && DistinctTxIds(n.pdus) && !Forced(n.pdus[k])
    requires var p, e, tick := n.pdus[k], ins[t].epoch, ins[t].tick;
             FiresAt(p, e, tick)
    requires var was, now := PayloadAfter(n, ins, k, t), PayloadAfter(n, ins, k, t + 1);
             i < |was| == |now| && now == was[i := now[i]] && now[i] != was[i]
    ensures SentAt(n, ins, k, t)
  {
    hide Valid, Initial, SentAt, PayloadHash, After, PayloadAfter, Due, FiresAt;
    TickOfRun(n, ins, k, t);
    DueIs(n.pdus[k], ins[t].epoch, ins[t].tick);
    OneByteChange(PayloadAfter(n, ins, k, t), i, PayloadAfter(n, ins, k, t + 1)[i]);
  }

  // ---- Contained PDUs ----

  /** k is the I-PDU at position a of container c, and of no other container. */
  ghost predicate InContainer(n: Net, k: nat, c: nat, a: nat)
    requires Valid(n)
  {
    && k < |n.pdus| && c < |n.pdus| && Carrier(n.pdus[k]) && n.pdus[c].IsContainer() && n.pdus[c].item.dir == Tx
    && a < |n.pdus[c].list| && n.pdus[c].list[a] == k
    && Unlisted(n.pdus, k, 0, c) && Unlisted(n.pdus, k, c + 1, |n.pdus|)
  }

  /** The state in which container c is mapped at this tick. */
  ghost function AtMapping(n: Net, c: nat, epoch: int, t: nat): (r: Net)
    requires Valid(n) && c < |n.pdus|
    ensures Valid(r) && r.pdus == n.pdus
  {
    MapUpTo(Prepared(n, epoch, t), c)
  }

  ghost predicate MappedIn(n: Net, c: nat, a: nat, epoch: int, t: nat)
    requires Valid(n) && c < |n.pdus| && n.pdus[c].IsContainer() && a < |n.pdus[c].list|
  {
    Due(n.pdus[c], epoch, t) && ItemOutcome(AtMapping(n, c, epoch, t), c, a) == Mapped
  }

  lemma {:induction false} ContainerTriggered(n: Net, c: nat, epoch: int, t: nat)
    requires Valid(n) && c < |n.pdus| && n.pdus[c].IsContainer() && n.pdus[c].item.dir == Tx && !n.status[c].needsTx
    ensures Mapping(AtMapping(n, c, epoch, t), c) <==> Due(n.pdus[c], epoch, t)
  {
    hide Valid, PackAll, PayloadHash, MapTo, Fires;
    var q := Prepared(n, epoch, t);
    assert q.status[c].needsTx == Due(n.pdus[c], epoch, t);
    assert Unlisted(n.pdus, c, 0, c) by {
      forall d | 0 <= d < c && n.pdus[d].IsContainer() ensures c !in n.pdus[d].list {
        ContainerFacts(n, d);
      }
    }
    MapUpToElsewhere(q, c, 0, c);
  }

  lemma {:induction false} FindAt(ids: seq<nat>, a: nat)
    requires a < |ids| && forall i, j | 0 <= i < j < |ids| :: ids[i] != ids[j]
    ensures Find(ids, ids[a]) == a
  {
    assert Find(ids, ids[a]) <= a;
  }

  /**
   * What one tick does to the checksum of a contained PDU whose payload then hashes to h:
   * at a container firing a pending one is mapped and its hash stored, or delayed and its checksum cleared.
   */
  predicate ContainedStep(p: Pdu, container: Pdu, was: nat, now: nat, h: nat, mapped: bool, epoch: int, t: nat) {
    var ref := Reference(p, was, epoch, t);
    && (h == ref || !Due(container, epoch, t) ==> now == ref && !mapped)
    && (h != ref && Due(container, epoch, t) ==> now == if mapped then h else 0)
  }

  lemma {:induction false} ContainedTick(n: Net, k: nat, c: nat, a: nat, epoch: int, t: nat)
    requires Valid(n) && InContainer(n, k, c, a) && Settled(n, k) && !n.status[c].needsTx
    ensures var r := TxStep(n, epoch, t);
            && Settled(r, k) && !r.status[c].needsTx
            && (!Due(n.pdus[k], epoch, t) ==> r.payload[k] == n.payload[k])
            && ContainedStep(n.pdus[k], n.pdus[c], n.status[k].checksum, r.status[k].checksum,
                             PayloadHash(r.payload[k]), MappedIn(n, c, a, epoch, t), epoch, t)
  {
    hide Valid, Layout, PackAll, PayloadHash, Fires, Prepared, RawOf, MapTo, MapUpTo, ItemOutcome, ReadyToSend,
        TxStep, Mapping;
    ContainerFacts(n, c);
    var q, m := Prepared(n, epoch, t), AtMapping(n, c, epoch, t);
    PreparedPayload(n, k, epoch, t);
    PreparedStatus(n, k, epoch, t);
    MapUpToElsewhere(q, k, 0, c);
    ContainerTriggered(n, c, epoch, t);
    MapToMember(m, c, a);
    MapUpToElsewhere(q, k, c + 1, |n.pdus|);
    MapUpToNext(q, c);
    TickEnd(n, k, epoch, t);
    TickEnd(n, c, epoch, t);
  }

  lemma {:induction false} MapUpToNext(n: Net, c: nat)
    requires Valid(n) && c < |n.pdus|
    ensures MapUpTo(n, 0) == n && MapUpTo(n, c + 1) == MapTo(MapUpTo(n, c), c)
  {
    hide Valid, MapTo;
  }

  /** What mapping container c does to the I-PDU at position a. */
  lemma {:induction false} MapToMember(n: Net, c: nat, a: nat)
    requires Valid(n) && c < |n.pdus| && n.pdus[c].IsContainer() && a < |n.pdus[c].list|
    ensures var k := n.pdus[c].list[a];
            && k < |n.pdus|
            && MapTo(n, c).payload[k] == n.payload[k]
            && (ItemOutcome(n, c, a) == Idle <==> !n.status[k].needsTx)
            && MapTo(n, c).status[k] ==
               if Mapping(n, c) then OutcomeStatus(ItemOutcome(n, c, a), n.status[k], n.payload[k]) else n.status[k]
  {
    hide Valid, Build, Used, PayloadHash;
    ContainerFacts(n, c);
    FindAt(n.pdus[c].list, a);
  }

  /**
   * Priority decides: the I-PDU at position a waits exactly when it is pending and does not fit behind what is mapped
   * before it. All I-PDUs of smaller priority come before it, and none of greater priority does.
   */
  lemma {:induction false} DelayedByPriority(n: Net, c: nat, a: nat)
    requires Valid(n) && c < |n.pdus| && n.pdus[c].IsContainer() && a < |n.pdus[c].list|
    ensures var h, list := n.pdus[c].item.header, n.pdus[c].list;
            && list[a] < |n.pdus|
            && var before := WrittenBytes(h, n.pdus[c].item.length, Items(n, c)[..a]);
               var header := if h == Short then 4 else if h == Full then 8 else 0;
               var fits := before + header + n.pdus[list[a]].item.length <= n.pdus[c].item.length;
               && (ItemOutcome(n, c, a) == Delayed <==> n.status[list[a]].needsTx && !fits)
               && (ItemOutcome(n, c, a) == Mapped <==> n.status[list[a]].needsTx && fits)
    ensures var list := n.pdus[c].list;
            && (forall j | 0 <= j < |n.pdus| && n.pdus[j].item.dir == n.pdus[c].item.dir
                           && n.pdus[j].item.containerId == n.pdus[c].item.id
                           && n.pdus[j].item.priority < n.pdus[list[a]].item.priority :: j in list[..a])
            && (forall b | 0 <= b < a :: list[b] < |n.pdus|
                                         && n.pdus[list[b]].item.priority <= n.pdus[list[a]].item.priority)
  {
    ContainerFacts(n, c);
    BeforeByPriority(n, c, a);
    hide Valid, WrittenBytes, Used, ContainerOk;
    UsedBytes(n.pdus[c].item.header, n.pdus[c].item.length, Items(n, c)[..a]);
  }

  lemma {:induction false} BeforeByPriority(n: Net, c: nat, a: nat)
    requires Valid(n) && c < |n.pdus| && n.pdus[c].IsContainer() && a < |n.pdus[c].list|
    ensures var list := n.pdus[c].list;
            && list[a] < |n.pdus|
            && (forall j | 0 <= j < |n.pdus| && Names(n.pdus[j].item, n.pdus[c].item)
                           && n.pdus[j].item.priority < n.pdus[list[a]].item.priority :: j in list[..a])
            && (forall b | 0 <= b < a :: list[b] < |n.pdus|
                                         && n.pdus[list[b]].item.priority <= n.pdus[list[a]].item.priority)
  {
    ContainerFacts(n, c);
    ListFacts(n, c);
    hide Valid, ContainerOk, Names;
    var list := n.pdus[c].list;
    forall j | 0 <= j < |n.pdus| && Names(n.pdus[j].item, n.pdus[c].item)
               && n.pdus[j].item.priority < n.pdus[list[a]].item.priority
      ensures j in list[..a]
    {
      var b :| 0 <= b < |list| && list[b] == j;
      assert list[..a][b] == j;
    }
  }

  lemma {:induction false} ListFacts(n: Net, c: nat)
    requires Valid(n) && c < |n.pdus| && n.pdus[c].IsContainer()
    ensures forall j | 0 <= j < |n.pdus| && Names(n.pdus[j].item, n.pdus[c].item) :: j in n.pdus[c].list
    ensures forall a, b | 0 <= a < b < |n.pdus[c].list| ::
              && n.pdus[c].list[a] < |n.pdus| && n.pdus[c].list[b] < |n.pdus|
              && n.pdus[n.pdus[c].list[a]].item.priority <= n.pdus[n.pdus[c].list[b]].item.priority
  {
    assert ListOk(n.pdus, c);
  }

  /** An I-PDU that names a Tx container has a position in its list, and in no other if ids are distinct. */
  lemma {:induction false} NamedIsContained(n: Net, k: nat, c: nat) returns (a: nat)
    requires Valid(n) && k < |n.pdus| && c < |n.pdus| && Carrier(n.pdus[k]) && n.pdus[c].IsContainer()
    requires n.pdus[k].item.dir == n.pdus[c].item.dir && n.pdus[k].item.containerId == n.pdus[c].item.id
    requires DistinctTxIds(n.pdus)
    ensures InContainer(n, k, c, a)
  {
    ListFacts(n, c);
    ContainerFacts(n, c);
    a :| 0 <= a < |n.pdus[c].list| && n.pdus[c].list[a] == k;
    forall d | 0 <= d < |n.pdus| && d != c && n.pdus[d].IsContainer() ensures k !in n.pdus[d].list {
      ContainerFacts(n, d);
      hide Valid;
    }
    hide Valid;
  }

  // ---- Contained PDUs over whole runs ----

  ghost predicate MappedAt(n: Net, ins: seq<Input>, c: nat, a: nat, t: nat)
    requires Valid(n) && InputsFor(n, ins) && t < |ins|
    requires c < |n.pdus| && n.pdus[c].IsContainer() && a < |n.pdus[c].list|
  {
    MappedIn(AtStep(n, ins, t), c, a, ins[t].epoch, ins[t].tick)
  }

  /** The payload of k when it was last mapped before step t, or its initial payload. */
  ghost function LastMapped(n: Net, ins: seq<Input>, k: nat, c: nat, a: nat, t: nat): seq<byte>
    requires Valid(n) && InputsFor(n, ins) && t <= |ins| && InContainer(n, k, c, a)
  {
    if t == 0 then n.payload[k]
    else if MappedAt(n, ins, c, a, t - 1) then PayloadAfter(n, ins, k, t)
    else LastMapped(n, ins, k, c, a, t - 1)
  }

  lemma {:induction false} InContainerStable(n: Net, r: Net, k: nat, c: nat, a: nat)
    requires Valid(n) && Valid(r) && r.pdus == n.pdus && InContainer(n, k, c, a)
    ensures InContainer(r, k, c, a)
    ensures k < |n.pdus| && c < |n.pdus| && Carrier(n.pdus[k]) && n.pdus[c].IsContainer() && n.pdus[c].item.dir == Tx
    ensures a < |n.pdus[c].list|
  {
    hide Valid, Unlisted;
  }

  lemma {:induction false} ContainedInput(n: Net, i: Input, k: nat, c: nat, a: nat)
    requires Valid(n) && |i.phys| == |n.rows| && InContainer(n, k, c, a) && Settled(n, k) && !n.status[c].needsTx
    ensures var b, r := Before(n, i), TxStep(Before(n, i), i.epoch, i.tick);
            && Settled(r, k) && !r.status[c].needsTx
            && ContainedStep(n.pdus[k], n.pdus[c], n.status[k].checksum, r.status[k].checksum,
                             PayloadHash(r.payload[k]), MappedIn(b, c, a, i.epoch, i.tick), i.epoch, i.tick)
  {
    hide Valid, PayloadHash, TxStep, Before, Settled, InContainer, MappedIn, ContainedStep;
    InContainerStable(n, Before(n, i), k, c, a);
    BeforeInStep(n, i, k);
    BeforeInStep(n, i, c);
    ContainedTick(Before(n, i), k, c, a, i.epoch, i.tick);
  }

  /** Between ticks: k is settled, and container c has nothing left to send. */
  ghost predicate SettledAfter(n: Net, ins: seq<Input>, k: nat, c: nat, t: nat)
    requires Valid(n) && InputsFor(n, ins) && t <= |ins| && k < |n.pdus| && c < |n.pdus|
  {
    Settled(After(n, ins[..t]), k) && !StatusAfter(n, ins, c, t).needsTx
  }

  /** One step of a run for a contained PDU. */
  lemma {:induction false} ContainedTickOfRun(n: Net, ins: seq<Input>, k: nat, c: nat, a: nat, t: nat)
    requires Initial(n) && InputsFor(n, ins) && t < |ins| && InContainer(n, k, c, a) && SettledAfter(n, ins, k, c, t)
    ensures SettledAfter(n, ins, k, c, t + 1)
    ensures ContainedStep(n.pdus[k], n.pdus[c], StatusAfter(n, ins, k, t).checksum, StatusAfter(n, ins, k,
        t + 1).checksum,
                          PayloadHash(PayloadAfter(n, ins, k, t + 1)), MappedAt(n, ins, c, a, t),
                          ins[t].epoch, ins[t].tick)
  {
    hide Valid, Initial, PayloadHash, TxStep, Before, Settled, InContainer, MappedIn, ContainedStep, After;
    InContainerStable(n, After(n, ins[..t]), k, c, a);
    ContainedInput(After(n, ins[..t]), ins[t], k, c, a);
    AfterNext(n, ins, t);
  }

  lemma {:induction false} AfterNext(n: Net, ins: seq<Input>, t: nat)
    requires Valid(n) && InputsFor(n, ins) && t < |ins|
    ensures After(n, ins[..t + 1]) == TxStep(AtStep(n, ins, t), ins[t].epoch, ins[t].tick)
  {
    hide Valid, TxStep, Before;
    assert ins[..t + 1][..t] == ins[..t];
  }

  lemma {:induction false} ContainedAlongRun(n: Net, ins: seq<Input>, k: nat, c: nat, a: nat, t: nat)
    requires Initial(n) && InputsFor(n, ins) && t <= |ins| && InContainer(n, k, c, a)
    ensures SettledAfter(n, ins, k, c, t)
  {
    hide Valid, PackAll, PayloadHash, TxStep, Before, Due, Settled, Unlisted;
    if t == 0 {
      InitialInStep(n, k);
      InStepSettled(n, k);
    } else {
      ContainedAlongRun(n, ins, k, c, a, t - 1);
      ContainedTickOfRun(n, ins, k, c, a, t - 1);
    }
  }

  lemma {:induction false} InStepSettled(n: Net, k: nat)
    requires Valid(n) && k < |n.pdus| && InStep(n, k)
    ensures Settled(n, k)
  {}

  /** A stored checksum is 0 (the PDU is waiting to be mapped) or the hash of the payload last mapped. */
  lemma {:induction false} ChecksumIsLastMapped(n: Net, ins: seq<Input>, k: nat, c: nat, a: nat, t: nat)
    requires Initial(n) && InputsFor(n, ins) && t <= |ins| && InContainer(n, k, c, a)
    ensures StatusAfter(n, ins, k, t).checksum == 0
            || StatusAfter(n, ins, k, t).checksum == PayloadHash(LastMapped(n, ins, k, c, a, t))
  {
    hide Valid, PackAll, PayloadHash, TxStep, Before, Due, SettledAfter, Unlisted, MappedAt;
    if t > 0 {
      ChecksumIsLastMapped(n, ins, k, c, a, t - 1);
      ContainedAlongRun(n, ins, k, c, a, t - 1);
      ContainedTickOfRun(n, ins, k, c, a, t - 1);
    }
  }

  /**
   * One step of a run, in full: an I-PDU is mapped only where its container fires and its hash differs from the
   * stored checksum, which a periodic schedule of its own clears where it fires. The checksum then is that hash if
   * the I-PDU is mapped, and 0 if not.
   */
  lemma {:induction false} ContainedTrace(n: Net, ins: seq<Input>, k: nat, c: nat, a: nat, t: nat)
    requires Initial(n) && InputsFor(n, ins) && t < |ins| && InContainer(n, k, c, a)
    ensures k < |n.pdus| && c < |n.pdus| && n.pdus[c].IsContainer() && a < |n.pdus[c].list|
    ensures var p, container, e, tick := n.pdus[k], n.pdus[c], ins[t].epoch, ins[t].tick;
            var was, now := StatusAfter(n, ins, k, t).checksum, StatusAfter(n, ins, k, t + 1).checksum;
            var h, mapped := PayloadHash(PayloadAfter(n, ins, k, t + 1)), MappedAt(n, ins, c, a, t);
            var fires := FiresAt(container, e, tick);
            var forced := p.interval > 0 && p.item.trigger == Periodic && FiresAt(p, e, tick);
            var ref := if forced then 0 else was;
            && (mapped ==> fires && h != ref)
            && now == if !fires || h == ref then ref else if mapped then h else 0
  {
    hide Valid, PackAll, PayloadHash, TxStep, Before, SettledAfter, Unlisted, MappedAt, After, Due, FiresAt;
    ContainedAlongRun(n, ins, k, c, a, t);
    ContainedTickOfRun(n, ins, k, c, a, t);
    DueIs(n.pdus[k], ins[t].epoch, ins[t].tick);
    DueIs(n.pdus[c], ins[t].epoch, ins[t].tick);
  }

  /**
   * No update is lost at a container firing: whatever differs from the stored checksum is mapped, or leaves checksum 0.
   * With checksum 0 it is offered again at every firing until it is mapped, unless its payload hashes to 0.
   */
  lemma {:induction false} PendingNotLost(n: Net, ins: seq<Input>, k: nat, c: nat, a: nat, t: nat)
    requires Initial(n) && InputsFor(n, ins) && t < |ins| && InContainer(n, k, c, a)
    requires var container, e, tick := n.pdus[c], ins[t].epoch, ins[t].tick;
             FiresAt(container, e, tick)
    ensures var was, now := StatusAfter(n, ins, k, t).checksum, StatusAfter(n, ins, k, t + 1).checksum;
            var h := PayloadHash(PayloadAfter(n, ins, k, t + 1));
            && (h != was ==> now == if MappedAt(n, ins, c, a, t) then h else 0)
            && (h == was == 0 ==> now == 0 && !MappedAt(n, ins, c, a, t))
  {
    hide Valid, PackAll, PayloadHash, TxStep, Before, SettledAfter, Unlisted, MappedAt, After, Due, FiresAt;
    ContainedAlongRun(n, ins, k, c, a, t);
    ContainedTickOfRun(n, ins, k, c, a, t);
    DueIs(n.pdus[k], ins[t].epoch, ins[t].tick);
    DueIs(n.pdus[c], ins[t].epoch, ins[t].tick);
  }
}
