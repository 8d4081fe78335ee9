/** Delivery over whole runs: what a PDU network sends at any step is what another decodes. */
module Delivery {
  import opened Binary
  import opened BitCodec
  import opened Checksum
  import opened Container
  import opened Fields
  import opened Matrix
  import opened Network
  import opened PduRuns
  import opened Scaling
  import opened Transport

  /** The last step before t at which a Tx PDU was encoded: any, without an interval; else one that fires. */
  function LastDue(p: Pdu, ins: seq<Input>, t: nat): (d: Option<nat>)
    requires t <= |ins|
    ensures d.Some? ==> d.value < t
  {
    if t == 0 then None else
    var e, tick := ins[t - 1].epoch, ins[t - 1].tick;
    if p.item.dir == Tx && FiresAt(p, e, tick) then Some(t - 1)
    else LastDue(p, ins, t - 1)
  }

  /** Receiving keeps the raw values of Tx rows; the model's physical values are what gets encoded. */
  lemma {:induction false} BeforeRow(n: Net, i: Input, x: nat)
    requires Valid(n) && |i.phys| == |n.rows| && x < |n.rows|
    requires n.rows[x].pdu < |n.pdus| && n.pdus[n.rows[x].pdu].item.dir == Tx
    ensures Before(n, i).phys[x] == i.phys[x] && Before(n, i).raw[x] == n.raw[x]
  {
    FieldOfRow(n, x);
    FieldOfRow(RxStep(n, i.frames), x);
    RxElsewhere(n, i.frames, n.rows[x].pdu);
    hide Valid, RxStep, RawOf;
  }

  lemma {:induction false} ScaleOfRow(n: Net, x: nat)
    requires Valid(n) && x < |n.rows|
    ensures n.rows[x].signal.scale.Valid()
  {
    FieldFitsRow(n, x);
  }

  lemma {:induction false} LastDueNext(p: Pdu, ins: seq<Input>, t: nat)
    requires 0 < t <= |ins|
    ensures LastDue(p, ins, t) ==
            if Due(p, ins[t - 1].epoch, ins[t - 1].tick) then Some(t - 1) else LastDue(p, ins, t - 1)
  {
    DueIs(p, ins[t - 1].epoch, ins[t - 1].tick);
    hide Due, FiresAt;
  }

  /** A raw value is the encoding of the physical value at the last due step. */
  lemma {:induction false} RawFollows(n: Net, ins: seq<Input>, x: nat, t: nat)
    requires Valid(n) && InputsFor(n, ins) && t <= |ins| && x < |n.rows|
    requires n.rows[x].pdu < |n.pdus| && Carrier(n.pdus[n.rows[x].pdu]) && n.rows[x].signal.scale.Valid()
    requires LastDue(n.pdus[n.rows[x].pdu], ins, t).Some?
    ensures var d := LastDue(n.pdus[n.rows[x].pdu], ins, t).value;
            After(n, ins[..t]).raw[x] == Encode(n.rows[x].signal.scale, ins[d].phys[x], After(n, ins[..d]).raw[x])
  {
    hide Valid, TxStep, Before, Due, Encode;
    LastDueNext(n.pdus[n.rows[x].pdu], ins, t);
    AfterNext(n, ins, t - 1);
    BeforeRow(After(n, ins[..t - 1]), ins[t - 1], x);
    RawEncoded(AtStep(n, ins, t - 1), ins[t - 1].epoch, ins[t - 1].tick, x);
    if !Due(n.pdus[n.rows[x].pdu], ins[t - 1].epoch, ins[t - 1].tick) {
      RawFollows(n, ins, x, t - 1);
    }
  }

  ghost function RawAfter(n: Net, ins: seq<Input>, x: nat, t: nat): nat
    requires Valid(n) && InputsFor(n, ins) && t <= |ins| && x < |n.rows|
  {
    After(n, ins[..t]).raw[x]
  }

  /** Every step of a run, for a PDU without interval or where the schedule fires; and where it does not. */
  lemma {:induction false} RowTrace(n: Net, ins: seq<Input>, x: nat, t: nat)
    requires Valid(n) && InputsFor(n, ins) && t < |ins| && x < |n.rows|
    requires n.rows[x].pdu < |n.pdus| && n.pdus[n.rows[x].pdu].item.dir == Tx && n.rows[x].signal.scale.Valid()
    ensures var p, e, tick := n.pdus[n.rows[x].pdu], ins[t].epoch, ins[t].tick;
            var was, now := RawAfter(n, ins, x, t), RawAfter(n, ins, x, t + 1);
            var fires := FiresAt(p, e, tick);
            if p.item.header == NoHeader && fires then EncodedAs(n.rows[x].signal.scale, ins[t].phys[x], was, now)
            else now == was
  {
    hide Valid, TxStep, Before, EncodedAs, FiresAt;
    AfterNext(n, ins, t);
    BeforeRow(After(n, ins[..t]), ins[t], x);
    TxRow(AtStep(n, ins, t), ins[t].epoch, ins[t].tick, x);
  }

  /** What a receiver makes of the frames of step t. */
  ghost function ReceivedValue(tx: Net, ins: seq<Input>, t: nat, rx: Net, x': nat): real
    requires Valid(tx) && InputsFor(tx, ins) && t < |ins| && Valid(rx) && x' < |rx.rows|
  {
    RxStep(rx, TxFrames(AtStep(tx, ins, t), ins[t].epoch, ins[t].tick)).phys[x']
  }

  /**
   * A value is sent when the physical value at the last due step is representable.
   * It arrives when the receiver decodes a value within one step of it, which encodes to the same raw.
   */
  ghost predicate Delivers(tx: Net, ins: seq<Input>, t: nat, x: nat, rx: Net, x': nat)
    requires Valid(tx) && InputsFor(tx, ins) && t < |ins| && Valid(rx) && x < |tx.rows| && x' < |rx.rows|
    requires tx.rows[x].pdu < |tx.pdus| && tx.rows[x].signal.scale.Valid()
  {
    var s, f, last := tx.rows[x].signal.scale, tx.rows[x].signal.field, LastDue(tx.pdus[tx.rows[x].pdu], ins, t + 1);
    last.Some? && Representable(s, f.length, ins[last.value].phys[x]) ==>
      var sent, got := ins[last.value].phys[x], ReceivedValue(tx, ins, t, rx, x');
      rx.rows[x'].signal.scale.InRange(Physical(Encode(s, sent, 0), s.factor.value, s.offset.value)) ==>
        && Abs(got - sent) < Abs(s.factor.value)
        && (s.InRange(got) ==> Encode(s, got, 0) == Encode(s, sent, 0))
  }

  lemma {:induction false} ArrivedDelivers(tx: Net, ins: seq<Input>, t: nat, x: nat, rx: Net, x': nat)
    requires Valid(tx) && InputsFor(tx, ins) && t < |ins| && Valid(rx) && RowsMatch(tx, x, rx, x')
    requires Carrier(tx.pdus[tx.rows[x].pdu]) && tx.rows[x].signal.scale.Valid()
    requires Settled(After(tx, ins[..t + 1]), tx.rows[x].pdu)
    requires BytesArrive(AtStep(tx, ins, t), ins[t].epoch, ins[t].tick, tx.rows[x].pdu, rx, rx.rows[x'].pdu)
    ensures Delivers(tx, ins, t, x, rx, x')
  {
    hide Valid, TxStep, TxFrames, RxStep, Before, Settled, BytesArrive, Disjoint, Physical, ToUint64, Steps, Due,
        After, Pow2;
    var s, f, last := tx.rows[x].signal.scale, tx.rows[x].signal.field, LastDue(tx.pdus[tx.rows[x].pdu], ins, t + 1);
    if last.Some? && Representable(s, f.length, ins[last.value].phys[x]) {
      var d := last.value;
      var sent, was := ins[d].phys[x], After(tx, ins[..d]).raw[x];
      if rx.rows[x'].signal.scale.InRange(Physical(Encode(s, sent, 0), s.factor.value, s.offset.value)) {
        AfterNext(tx, ins, t);
        RawFollows(tx, ins, x, t + 1);
        ValueArrives(AtStep(tx, ins, t), ins[t].epoch, ins[t].tick, x, rx, x', sent, was);
      }
    }
  }

  /** A standalone PDU: whatever is sent at a step is delivered. */
  lemma {:induction false} StandaloneDelivers(tx: Net, ins: seq<Input>, t: nat, x: nat, rx: Net, x': nat)
    requires Initial(tx) && InputsFor(tx, ins) && t < |ins| && Valid(rx) && RowsMatch(tx, x, rx, x')
    requires Standalone(tx.pdus[tx.rows[x].pdu]) && DistinctTxIds(tx.pdus)
    requires !rx.pdus[rx.rows[x'].pdu].IsContained() && !rx.pdus[rx.rows[x'].pdu].IsContainer()
    requires SentAt(tx, ins, tx.rows[x].pdu, t)
    ensures tx.rows[x].signal.scale.Valid() && Delivers(tx, ins, t, x, rx, x')
  {
    hide Valid, Initial, TxStep, TxFrames, RxStep, Before, InStep, SentIn, BytesArrive, Disjoint, After, Delivers,
        RowsMatch;
    MatchFacts(tx, x, rx, x');
    var k := tx.rows[x].pdu;
    ScaleOfRow(tx, x);
    AfterInStep(tx, ins[..t], k);
    BeforeInStep(After(tx, ins[..t]), ins[t], k);
    AfterInStep(tx, ins[..t + 1], k);
    InStepSettled(After(tx, ins[..t + 1]), k);
    StandaloneArrives(AtStep(tx, ins, t), ins[t].epoch, ins[t].tick, k, rx, rx.rows[x'].pdu);
    ArrivedDelivers(tx, ins, t, x, rx, x');
  }

  lemma {:induction false} MatchFacts(tx: Net, x: nat, rx: Net, x': nat)
    requires Valid(tx) && Valid(rx) && RowsMatch(tx, x, rx, x')
    ensures x < |tx.rows| && x' < |rx.rows| && tx.rows[x].pdu < |tx.pdus| && rx.rows[x'].pdu < |rx.pdus|
    ensures tx.pdus[tx.rows[x].pdu].item.dir == Tx && rx.pdus[rx.rows[x'].pdu].item.dir == Rx
    ensures tx.pdus[tx.rows[x].pdu].item.id == rx.pdus[rx.rows[x'].pdu].item.id
    ensures tx.pdus[tx.rows[x].pdu].item.length == rx.pdus[rx.rows[x'].pdu].item.length
  {
    hide Valid;
  }

  /** Sender and receiver containers match, and carry the two PDUs. */
  ghost predicate ContainersMatch(tx: Net, k: nat, c: nat, a: nat, rx: Net, k': nat, c': nat, a': nat)
    requires Valid(tx) && Valid(rx)
  {
    && InContainer(tx, k, c, a) && ListCarried(tx, c) && DistinctTxIds(tx.pdus)
    && InRxContainer(rx, k', c', a') && DistinctList(rx.pdus, c')
    && rx.pdus[c'].item.header == tx.pdus[c].item.header
    && rx.pdus[c'].item.id == tx.pdus[c].item.id && rx.pdus[c'].item.length == tx.pdus[c].item.length
  }

  /** A contained PDU: whatever is mapped at a step is delivered, through the container. */
  lemma {:induction false} ContainedDelivers(tx: Net, ins: seq<Input>, t: nat, x: nat, c: nat, a: nat,
                                             rx: Net, x': nat, c': nat, a': nat)
    requires Initial(tx) && InputsFor(tx, ins) && t < |ins| && Valid(rx) && RowsMatch(tx, x, rx, x')
    requires ContainersMatch(tx, tx.rows[x].pdu, c, a, rx, rx.rows[x'].pdu, c', a')
    requires MappedAt(tx, ins, c, a, t)
    ensures tx.rows[x].signal.scale.Valid() && Delivers(tx, ins, t, x, rx, x')
  {
    hide Valid, Initial, TxStep, TxFrames, RxStep, Before, Settled, MappedIn, BytesArrive, Disjoint, After, Delivers,
        RowsMatch,
         DistinctTxIds, DistinctList, InRxContainer, ListCarried, InContainer;
    MatchFacts(tx, x, rx, x');
    var k := tx.rows[x].pdu;
    var n := AtStep(tx, ins, t);
    ScaleOfRow(tx, x);
    InContainerStable(tx, n, k, c, a);
    ContainedAlongRun(tx, ins, k, c, a, t);
    BeforeInStep(After(tx, ins[..t]), ins[t], k);
    BeforeInStep(After(tx, ins[..t]), ins[t], c);
    ContainedAlongRun(tx, ins, k, c, a, t + 1);
    CarriedStable(tx, n, c);
    ContainedArrives(n, ins[t].epoch, ins[t].tick, k, c, a, rx, rx.rows[x'].pdu, c', a');
    ArrivedDelivers(tx, ins, t, x, rx, x');
  }

  lemma {:induction false} CarriedStable(n: Net, r: Net, c: nat)
    requires Valid(n) && Valid(r) && r.pdus == n.pdus && c < |n.pdus| && ListCarried(n, c)
    ensures ListCarried(r, c)
  {
    hide Valid, DistinctList;
    forall a | 0 <= a < |n.pdus[c].list|
      ensures Carries(n.pdus[c].item.header, Segment(n.pdus[n.pdus[c].list[a]].item.id, r.payload[n.pdus[c].list[a]]))
    {
      assert |r.payload[n.pdus[c].list[a]]| == |n.payload[n.pdus[c].list[a]]|;
    }
  }

  // ---- A payload that hashes to 0 ----

  /** One periodic PDU of 4 bytes, due at every tick, with one unscaled signal of 32 bits. */
  function OnePdu(): Net {
    var signal := Signal(Field(0, 32), Scale(Some(1.0), Some(0.0), None, None));
    var item := PduItem(7, 4, Tx, NoHeader, 0, 0, 0.0, 1.0, Periodic, [signal]);
    var zeros := Zeros(4);
    Net([Pdu(item, 0, 1, 0, [])], [Row(0, 0, signal)],
        [Status(false, false, PayloadHash(zeros))], [zeros], [false], [0.0], [0])
  }

  lemma {:induction false} OnePduInitial()
    ensures var n := OnePdu();
            && Initial(n) && Standalone(n.pdus[0]) && Forced(n.pdus[0]) && DistinctTxIds(n.pdus)
            && forall t: nat :: Due(n.pdus[0], 0, t)
  {
    hide Fnv;
    var n := OnePdu();
    assert Layout(n.pdus, n.rows);
    assert Valid(n);
  }

  /** A PDU that is due and all of one field ends the step with the bytes of the raw value. */
  lemma {:induction false} WholeField(n: Net, ins: seq<Input>, t: nat, x: nat)
    requires Initial(n) && InputsFor(n, ins) && t < |ins| && x < |n.rows| && n.rows[x].pdu < |n.pdus|
    requires Standalone(n.pdus[n.rows[x].pdu]) && Due(n.pdus[n.rows[x].pdu], ins[t].epoch, ins[t].tick)
    requires n.rows[x].signal.field == Field(0, 8 * n.pdus[n.rows[x].pdu].item.length)
    requires Disjoint(n.pdus[n.rows[x].pdu].Fields())
    ensures n.rows[x].signal.scale.Valid()
    ensures |PayloadAfter(n, ins, n.rows[x].pdu, t + 1)| == n.pdus[n.rows[x].pdu].item.length
    ensures LittleEndian(PayloadAfter(n, ins, n.rows[x].pdu, t + 1)) ==
            Encode(n.rows[x].signal.scale, ins[t].phys[x], After(n, ins[..t]).raw[x])
            % Pow2(8 * n.pdus[n.rows[x].pdu].item.length)
  {
    hide Valid, Initial, TxStep, Before, After, InStep, FieldValue, Due, Encode, Disjoint, Pow2, LittleEndian, Settled;
    ScaleOfRow(n, x);
    var r, k := After(n, ins[..t + 1]), n.rows[x].pdu;
    LastDueNext(n.pdus[k], ins, t + 1);
    RawFollows(n, ins, x, t + 1);
    AfterInStep(n, ins[..t + 1], k);
    InStepSettled(r, k);
    FieldHeld(r, x);
    WholePayload(r.payload[k]);
  }

  lemma {:induction false} OnePduPayload(ins: seq<Input>, t: nat)
    requires InputsFor(OnePdu(), ins) && t < |ins| && ins[t].epoch == 0 && ins[t].phys[0] == 3291555020.0
    ensures PayloadAfter(OnePdu(), ins, 0, t + 1) == [0xcc, 0x24, 0x31, 0xc4]
  {
    hide Valid, Initial, After, PayloadHash, Due, LittleEndian, PayloadAfter;
    var n := OnePdu();
    OnePduInitial();
    WholeField(n, ins, t, 0);
    OnePduEncodes(After(n, ins[..t]).raw[0]);
    assert LittleEndian(PayloadAfter(n, ins, 0, t + 1)) == 3291555020;
    BytesFrom(PayloadAfter(n, ins, 0, t + 1));
  }

  lemma {:induction false} BytesFrom(p: seq<byte>)
    requires |p| == 4 && LittleEndian(p) == 3291555020
    ensures p == [0xcc, 0x24, 0x31, 0xc4]
  {
    FourBytesOf(p);
    hide LittleEndian;
    assert p[3] == 0xc4;
    assert p[2] == 0x31;
    assert p[1] == 0x24;
  }

  lemma {:induction false} OnePduEncodes(was: nat)
    ensures Encode(OnePdu().rows[0].signal.scale, 3291555020.0, was) % Pow2(32) == 3291555020
  {
    WordRange();
    Pow2Grows(32, 64);
  }

  /** Whenever the model writes the value with these bytes, the PDU is due and not sent. */
  lemma {:induction false} ZeroHashNotSent(ins: seq<Input>, t: nat)
    requires InputsFor(OnePdu(), ins) && t < |ins| && ins[t].epoch == 0 && ins[t].phys[0] == 3291555020.0
    ensures Initial(OnePdu()) && Due(OnePdu().pdus[0], ins[t].epoch, ins[t].tick)
    ensures PayloadAfter(OnePdu(), ins, 0, t + 1) == [0xcc, 0x24, 0x31, 0xc4] && !SentAt(OnePdu(), ins, 0, t)
  {
    hide Valid, Initial, After, SentAt, PayloadHash, PayloadAfter;
    OnePduInitial();
    OnePduPayload(ins, t);
    ZeroHash();
    PeriodicTrace(OnePdu(), ins, 0, t);
  }
}
