/** From one network's Tx pass to another's Rx pass: what is packed, mapped and sent is what is received and decoded. */
module Transport {
  import opened Binary
  import opened BitCodec
  import opened Container
  import opened Fields
  import opened Matrix
  import opened Network
  import opened PduRuns
  import opened Scaling

  // ---- The bearer ----

  /** Some frame carries the id, and all that do carry these bytes. */
  ghost predicate Carrying(frames: seq<Frame>, id: nat, bytes: seq<byte>) {
    && (exists f :: f in frames && f.id == id)
    && (forall f :: f in frames && f.id == id ==> f.payload == bytes)
  }

  lemma {:induction false} FrameArrives(rx: Net, frames: seq<Frame>, p: nat, bytes: seq<byte>)
    requires Valid(rx) && p < |rx.pdus| && rx.pdus[p].item.dir == Rx && !rx.pdus[p].IsContained()
    requires Carrying(frames, rx.pdus[p].item.id, bytes) && |bytes| == rx.pdus[p].item.length
    ensures ReceivedAll(rx, frames).payload[p] == bytes && ReceivedAll(rx, frames).status[p].update
  {
    hide Valid;
    var n := |frames| - 1;
    if frames[n].id != rx.pdus[p].item.id {
      var f :| f in frames && f.id == rx.pdus[p].item.id;
      assert f in frames[..n];
      FrameArrives(rx, frames[..n], p, bytes);
    } else {
      assert frames[n].payload == bytes;
    }
  }

  /** One frame, byte by byte: an Rx PDU outside containers with the id takes what it carries, and keeps the rest. */
  lemma {:induction false} OneFrame(n: Net, f: Frame, p: nat, i: nat)
    requires Valid(n) && p < |n.pdus| && i < |n.payload[p]|
    ensures var o, r := n.pdus[p].item, Received(n, f);
            var accepts := o.dir == Rx && o.containerId == 0 && o.id == f.id;
            && |r.payload[p]| == |n.payload[p]|
            && r.payload[p][i] == (if accepts && i < |f.payload| then f.payload[i] else n.payload[p][i])
            && r.status[p].update == (accepts || n.status[p].update)
  {
    hide Valid;
  }

  /** Nothing is taken from frames with other ids, nor by PDUs that frames do not go to. */
  lemma {:induction false} FramesIgnored(n: Net, frames: seq<Frame>, p: nat)
    requires Valid(n) && p < |n.pdus|
    requires n.pdus[p].item.dir != Rx || n.pdus[p].IsContained() || forall f | f in frames :: f.id != n.pdus[p].item.id
    ensures ReceivedAll(n, frames).payload[p] == n.payload[p] && ReceivedAll(n, frames).status[p] == n.status[p]
  {
    hide Valid, CopyInto;
    if frames != [] {
      FramesIgnored(n, frames[..|frames| - 1], p);
    }
  }

  /** An I-PDU stays as it is while no container that lists it has been received; and all update flags end up clear. */
  lemma {:induction false} Untouched(n: Net, frames: seq<Frame>, k: nat)
    requires Valid(n) && k < |n.pdus| && n.pdus[k].item.dir == Rx && n.pdus[k].IsContained()
    requires forall c | 0 <= c < |n.pdus| && n.pdus[c].IsContainer() && k in n.pdus[c].list ::
               !n.status[c].update && forall f | f in frames :: f.id != n.pdus[c].item.id
    ensures RxStep(n, frames).payload[k] == n.payload[k]
    ensures forall p | 0 <= p < |n.pdus| :: !RxStep(n, frames).status[p].update
  {
    hide Valid, ReceivedAll, MapFromUpTo;
    var r := ReceivedAll(n, frames);
    FramesIgnored(n, frames, k);
    forall c | 0 <= c < |n.pdus| && n.pdus[c].IsContainer() && k in n.pdus[c].list ensures !r.status[c].update {
      FramesIgnored(n, frames, c);
    }
    UntouchedUpTo(r, k, |n.pdus|);
    assert RxStep(n, frames).payload == MapFromUpTo(r, |n.pdus|).payload;
  }

  lemma {:induction false} UntouchedUpTo(n: Net, k: nat, hi: nat)
    requires Valid(n) && k < |n.pdus| && hi <= |n.pdus|
    requires forall c | 0 <= c < |n.pdus| && n.pdus[c].IsContainer() && k in n.pdus[c].list :: !n.status[c].update
    ensures MapFromUpTo(n, hi).payload[k] == n.payload[k] && MapFromUpTo(n, hi).status == n.status
  {
    hide Valid, MapFrom;
    if hi > 0 {
      UntouchedUpTo(n, k, hi - 1);
      var m := MapFromUpTo(n, hi - 1);
      UntouchedBy(m, hi - 1, k);
    }
  }

  lemma {:induction false} UntouchedBy(n: Net, c: nat, k: nat)
    requires Valid(n) && c < |n.pdus| && k < |n.pdus|
    requires n.pdus[c].IsContainer() && k in n.pdus[c].list ==> !n.status[c].update
    ensures MapFrom(n, c).payload[k] == n.payload[k] && MapFrom(n, c).status == n.status
  {
    hide Valid, Parsed, Delivered;
    if Unmapping(n, c) {
      assert Find(n.pdus[c].list, k) == |n.pdus[c].list|;
    }
  }

  // ---- Taking containers apart ----

  lemma {:induction false} MapFromKeeps(n: Net, c: nat, p: nat)
    requires Valid(n) && c < |n.pdus| && p < |n.pdus|
    requires n.pdus[c].IsContainer() ==> p !in n.pdus[c].list
    ensures MapFrom(n, c).payload[p] == n.payload[p] && MapFrom(n, c).status == n.status
  {
    hide Valid, Parsed, Delivered;
    if Unmapping(n, c) {
      assert Find(n.pdus[c].list, p) == |n.pdus[c].list|;
    }
  }

  ghost predicate ListedOnlyIn(pdus: seq<Pdu>, p: nat, lo: nat, hi: nat)
    requires hi <= |pdus|
  {
    forall c | lo <= c < hi :: pdus[c].IsContainer() ==> p !in pdus[c].list
  }

  lemma {:induction false} MapFromUpToKeeps(n: Net, p: nat, lo: nat, hi: nat)
    requires Valid(n) && p < |n.pdus| && lo <= hi <= |n.pdus| && ListedOnlyIn(n.pdus, p, lo, hi)
    ensures MapFromUpTo(n, hi).payload[p] == MapFromUpTo(n, lo).payload[p]
    ensures MapFromUpTo(n, hi).status[p] == MapFromUpTo(n, lo).status[p]
  {
    hide Valid, MapFrom;
    if lo < hi {
      MapFromUpToKeeps(n, p, lo, hi - 1);
      MapFromKeeps(MapFromUpTo(n, hi - 1), hi - 1, p);
    }
  }

  /** Ids of the I-PDUs listed in c are distinct. */
  ghost predicate DistinctList(pdus: seq<Pdu>, c: nat)
    requires c < |pdus|
  {
    forall i, j | 0 <= i < j < |pdus[c].list| ::
      pdus[c].list[i] < |pdus| && pdus[c].list[j] < |pdus| ==>
        pdus[pdus[c].list[i]].item.id != pdus[pdus[c].list[j]].item.id
  }

  /** One container: the I-PDU named by a segment gets its bytes. */
  lemma {:induction false} SegmentArrives(n: Net, c: nat, a: nat, segs: seq<Segment>, j: nat)
    requires Valid(n) && c < |n.pdus| && a < |n.pdus[c].list| && Unmapping(n, c) && DistinctList(n.pdus, c)
    requires segs == Parsed(n.pdus[c].item.header, n.payload[c]) && DistinctIds(segs) && j < |segs|
    requires n.pdus[c].list[a] < |n.pdus| && segs[j].id == n.pdus[n.pdus[c].list[a]].item.id
    requires |segs[j].data| == n.pdus[n.pdus[c].list[a]].item.length
    ensures MapFrom(n, c).payload[n.pdus[c].list[a]] == segs[j].data
  {
    hide Valid, Parsed;
    ContainerFacts(n, c);
    var list := n.pdus[c].list;
    FindAt(list, a);
    DeliverHit(ListIds(n.pdus, list), ListPayloads(n.payload, list), segs, j, a);
  }

  // ---- Reading the fields ----

  lemma {:induction false} RowRead(m: Net, x: nat)
    requires Valid(m) && x < |m.rows| && m.rows[x].pdu < |m.pdus| && m.pdus[m.rows[x].pdu].item.dir == Rx
    ensures var p, f, r := m.rows[x].pdu, m.rows[x].signal.field, Decoded(Unpacked(m));
            && f.start + f.length <= 8 * |m.payload[p]|
            && r.raw[x] == FieldValue(m.payload[p], f.start, f.length)
            && r.phys[x] == Decode(m.rows[x].signal.scale, r.raw[x], m.phys[x])
  {
    FieldFitsRow(m, x);
    hide Valid, FieldValue, Decode;
    var u := Unpacked(m);
    assert u.raw[x] == UnpackedRaw(m, x);
    assert Decoded(u).phys[x] == DecodedPhys(u, x);
  }

  lemma {:induction false} RowDecoded(n: Net, frames: seq<Frame>, x: nat)
    requires Valid(n) && x < |n.rows| && n.pdus[n.rows[x].pdu].item.dir == Rx
    ensures var p, f := n.rows[x].pdu, n.rows[x].signal.field;
            var m := MapFromUpTo(ReceivedAll(n, frames), |n.pdus|);
            && f.start + f.length <= 8 * |m.payload[p]|
            && RxStep(n, frames).raw[x] == FieldValue(m.payload[p], f.start, f.length)
            && RxStep(n, frames).phys[x] == Decode(n.rows[x].signal.scale, RxStep(n, frames).raw[x], n.phys[x])
  {
    FieldFitsRow(n, x);
    hide Valid, ReceivedAll, MapFromUpTo, FieldValue, Decode, Decoded, Unpacked, Fits;
    RowRead(MapFromUpTo(ReceivedAll(n, frames), |n.pdus|), x);
  }

  lemma {:induction false} FieldFitsRow(n: Net, x: nat)
    requires Valid(n) && x < |n.rows|
    ensures var p := n.rows[x].pdu;
            && p < |n.pdus| && n.rows[x].sig < |n.pdus[p].item.signals|
            && n.rows[x].signal == n.pdus[p].item.signals[n.rows[x].sig]
            && x == n.pdus[p].offset + n.rows[x].sig
            && Fits(n.rows[x].signal.field, n.pdus[p].item.length)
            && n.rows[x].signal.scale.Valid()
            && (n.pdus[p].item.dir == Rx ==> n.rows[x].signal.field.length <= 64)
  {
    hide ContainerOk, ListOk;
  }

  lemma {:induction false} FieldOfRow(n: Net, x: nat)
    requires Valid(n) && x < |n.rows|
    ensures var p, k := n.rows[x].pdu, n.rows[x].sig;
            && p < |n.pdus| && k < |n.pdus[p].item.signals|
            && n.pdus[p].Fields()[k] == n.rows[x].signal.field && RawOf(n, p)[k] == n.raw[x]
  {
    FieldFitsRow(n, x);
    hide Valid, Fits;
  }

  /** A settled payload holds every field's raw value, cut to its length. */
  lemma {:induction false} FieldHeld(n: Net, x: nat)
    requires Valid(n) && x < |n.rows| && n.rows[x].pdu < |n.pdus|
    requires Settled(n, n.rows[x].pdu) && Disjoint(n.pdus[n.rows[x].pdu].Fields())
    ensures var p, f := n.rows[x].pdu, n.rows[x].signal.field;
            && f.start + f.length <= 8 * |n.payload[p]|
            && FieldValue(n.payload[p], f.start, f.length) == n.raw[x] % Pow2(f.length)
  {
    FieldFitsRow(n, x);
    FieldOfRow(n, x);
    var p, k := n.rows[x].pdu, n.rows[x].sig;
    SettledField(n.payload[p], n.pdus[p].Fields(), RawOf(n, p), k) by {
      hide Pow2, FieldValue, PackAll, RawOf;
    }
    hide *;
  }

  lemma {:induction false} SettledField(q: seq<byte>, fs: seq<Field>, raws: seq<nat>, k: nat)
    requires |fs| == |raws| && AllFit(fs, |q|) && Disjoint(fs) && PackAll(q, fs, raws) == q && k < |fs|
    ensures fs[k].start + fs[k].length <= 8 * |q|
    ensures FieldValue(q, fs[k].start, fs[k].length) == raws[k] % Pow2(fs[k].length)
  {
    hide FieldValue, Pow2, PackAll, Disjoint;
    UnpackAll(q, fs, raws, k);
  }

  // ---- End to end ----

  /** The receiver's row x' is laid out and scaled like the sender's row x. Limits may differ. */
  ghost predicate RowsMatch(tx: Net, x: nat, rx: Net, x': nat)
    requires Valid(tx) && Valid(rx)
  {
    && x < |tx.rows| && x' < |rx.rows|
    && tx.rows[x].pdu < |tx.pdus| && rx.rows[x'].pdu < |rx.pdus|
    && tx.pdus[tx.rows[x].pdu].item.dir == Tx && rx.pdus[rx.rows[x'].pdu].item.dir == Rx
    && tx.pdus[tx.rows[x].pdu].item.id == rx.pdus[rx.rows[x'].pdu].item.id
    && tx.pdus[tx.rows[x].pdu].item.length == rx.pdus[rx.rows[x'].pdu].item.length
    && rx.rows[x'].signal.field == tx.rows[x].signal.field
    && rx.rows[x'].signal.scale.factor == tx.rows[x].signal.scale.factor
    && rx.rows[x'].signal.scale.offset == tx.rows[x].signal.scale.offset
    && Disjoint(tx.pdus[tx.rows[x].pdu].Fields())
  }

  /** The receiver's PDU ends up with the bytes that the sender's PDU has after the tick. */
  ghost predicate BytesArrive(tx: Net, epoch: int, t: nat, k: nat, rx: Net, k': nat)
    requires Valid(tx) && Valid(rx) && k < |tx.pdus| && k' < |rx.pdus|
  {
    MapFromUpTo(ReceivedAll(rx, TxFrames(tx, epoch, t)), |rx.pdus|).payload[k'] == TxStep(tx, epoch, t).payload[k]
  }

  /** A standalone PDU that is sent arrives. */
  lemma {:induction false} StandaloneArrives(tx: Net, epoch: int, t: nat, k: nat, rx: Net, k': nat)
    requires Valid(tx) && Valid(rx) && k < |tx.pdus| && k' < |rx.pdus|
    requires Standalone(tx.pdus[k]) && InStep(tx, k) && DistinctTxIds(tx.pdus) && SentIn(tx, epoch, t, k)
    requires rx.pdus[k'].item.dir == Rx && !rx.pdus[k'].IsContained() && !rx.pdus[k'].IsContainer()
    requires rx.pdus[k'].item.id == tx.pdus[k].item.id && rx.pdus[k'].item.length == tx.pdus[k].item.length
    ensures BytesArrive(tx, epoch, t, k, rx, k')
  {
    hide Valid, ReadyToSend, TxStep, ReceivedAll, MapFrom, TxFrames, InStep;
    StandaloneTick(tx, k, epoch, t);
    SentInIffSends(tx, epoch, t, k);
    var frames := TxFrames(tx, epoch, t);
    FrameArrives(rx, frames, k', TxStep(tx, epoch, t).payload[k]);
    assert ListedOnlyIn(rx.pdus, k', 0, |rx.pdus|) by {
      forall c | 0 <= c < |rx.pdus| && rx.pdus[c].IsContainer() ensures k' !in rx.pdus[c].list {
        ContainerFacts(rx, c);
      }
    }
    MapFromUpToKeeps(ReceivedAll(rx, frames), k', 0, |rx.pdus|);
  }

  /** Every I-PDU listed in c has an id and a length that the header can carry, and the ids differ. */
  ghost predicate ListCarried(n: Net, c: nat)
    requires Valid(n) && c < |n.pdus|
  {
    && DistinctList(n.pdus, c)
    && forall a | 0 <= a < |n.pdus[c].list| ::
         n.pdus[c].list[a] < |n.pdus| &&
         Carries(n.pdus[c].item.header, Segment(n.pdus[n.pdus[c].list[a]].item.id, n.payload[n.pdus[c].list[a]]))
  }

  lemma {:induction false} ItemsCarried(n: Net, r: Net, c: nat)
    requires Valid(n) && Valid(r) && r.pdus == n.pdus && c < |n.pdus| && n.pdus[c].IsContainer() && ListCarried(n, c)
    ensures AllCarried(n.pdus[c].item.header, Items(r, c)) && DistinctItems(Items(r, c))
  {
    hide Valid;
    ContainerFacts(n, c);
    forall a | 0 <= a < |n.pdus[c].list|
      ensures Carries(n.pdus[c].item.header, Segment(Items(r, c)[a].id, Items(r, c)[a].payload))
    {
      assert |r.payload[n.pdus[c].list[a]]| == |n.payload[n.pdus[c].list[a]]|;
    }
  }

  /** A container that maps something is sent, and its bytes are the built payload. */
  lemma {:induction false} ContainerSent(tx: Net, epoch: int, t: nat, c: nat, a: nat)
    requires Valid(tx) && c < |tx.pdus| && tx.pdus[c].IsContainer() && tx.pdus[c].item.dir == Tx
    requires a < |tx.pdus[c].list|
    requires !tx.status[c].needsTx && MappedIn(tx, c, a, epoch, t) && DistinctTxIds(tx.pdus)
    ensures Carrying(TxFrames(tx, epoch, t), tx.pdus[c].item.id,
                     Build(tx.pdus[c].item.header, tx.pdus[c].item.length, Items(AtMapping(tx, c, epoch, t), c)))
  {
    hide Valid, Prepared, MapTo, Build, ItemOutcome, TxFrames, SentIn, ReadyToSend;
    var q, m := Prepared(tx, epoch, t), AtMapping(tx, c, epoch, t);
    ContainerFacts(tx, c);
    ContainerTriggered(tx, c, epoch, t);
    assert Unlisted(tx.pdus, c, c + 1, |tx.pdus|) by {
      forall d | c + 1 <= d < |tx.pdus| && tx.pdus[d].IsContainer() ensures c !in tx.pdus[d].list {
        ContainerFacts(tx, d);
      }
    }
    MapUpToElsewhere(q, c, c + 1, |tx.pdus|);
    MapUpToNext(q, c);
    MapToContainer(m, c, a);
    TickEnd(tx, c, epoch, t);
    SentInIffSends(tx, epoch, t, c);
    SentInMeans(tx, epoch, t, c);
  }

  /** A container is sent exactly where it fires and maps something; an empty one is not. */
  lemma {:induction false} ContainerSentIff(tx: Net, epoch: int, t: nat, c: nat)
    requires Valid(tx) && c < |tx.pdus| && tx.pdus[c].IsContainer() && tx.pdus[c].item.dir == Tx
    requires !tx.status[c].needsTx && DistinctTxIds(tx.pdus)
    ensures SentIn(tx, epoch, t, c) <==> exists a :: 0 <= a < |tx.pdus[c].list| && MappedIn(tx, c, a, epoch, t)
    ensures forall a | 0 <= a < |tx.pdus[c].list| ::
              MappedIn(tx, c, a, epoch, t) <==>
              FiresAt(tx.pdus[c], epoch, t) && ItemOutcome(AtMapping(tx, c, epoch, t), c, a) == Mapped
    ensures !TxStep(tx, epoch, t).status[c].needsTx
  {
    hide Valid, Prepared, MapTo, ItemOutcome, TxFrames, SentIn, ReadyToSend, Due, FiresAt;
    var q, m := Prepared(tx, epoch, t), AtMapping(tx, c, epoch, t);
    ContainerFacts(tx, c);
    DueIs(tx.pdus[c], epoch, t);
    ContainerTriggered(tx, c, epoch, t);
    assert Unlisted(tx.pdus, c, c + 1, |tx.pdus|) by {
      forall d | c + 1 <= d < |tx.pdus| && tx.pdus[d].IsContainer() ensures c !in tx.pdus[d].list {
        ContainerFacts(tx, d);
      }
    }
    MapUpToElsewhere(q, c, c + 1, |tx.pdus|);
    MapUpToNext(q, c);
    MappingFlag(m, c);
    ContainerFlag(tx, c, epoch, t);
    TickEnd(tx, c, epoch, t);
    SentInIffSends(tx, epoch, t, c);
    var mapped := exists a :: 0 <= a < |tx.pdus[c].list| && ItemOutcome(m, c, a) == Mapped;
    forall a | 0 <= a < |tx.pdus[c].list|
      ensures MappedIn(tx, c, a, epoch, t) <==> FiresAt(tx.pdus[c], epoch, t) && ItemOutcome(m, c, a) == Mapped
    {}
    if SentIn(tx, epoch, t, c) {
      var a :| 0 <= a < |tx.pdus[c].list| && ItemOutcome(m, c, a) == Mapped;
      assert MappedIn(tx, c, a, epoch, t);
    }
  }

  /** Mapping sets the container's flag where it maps something; without mapping the flag was clear. */
  lemma {:induction false} MappingFlag(n: Net, c: nat)
    requires Valid(n) && c < |n.pdus| && n.pdus[c].IsContainer() && n.pdus[c].item.dir == Tx
    ensures MapTo(n, c).status[c].needsTx <==>
            n.status[c].needsTx && exists a :: 0 <= a < |n.pdus[c].list| && ItemOutcome(n, c, a) == Mapped
  {
    hide Valid, Build, ItemOutcome;
  }

  lemma {:induction false} ContainerFlag(n: Net, c: nat, epoch: int, t: nat)
    requires Valid(n) && c < |n.pdus| && n.pdus[c].IsContainer() && n.pdus[c].item.dir == Tx
    ensures Mapping(AtMapping(n, c, epoch, t), c) <==> AtMapping(n, c, epoch, t).status[c].needsTx
  {
    hide Valid, Prepared, MapUpTo;
  }

  /** A Tx pass leaves the bytes of every other PDU, and no send flag on it. */
  lemma {:induction false} OnlyTx(n: Net, epoch: int, t: nat, k: nat)
    requires Valid(n) && k < |n.pdus| && n.pdus[k].item.dir != Tx
    ensures var r := TxStep(n, epoch, t); r.payload[k] == n.payload[k] && !r.status[k].needsTx
  {
    hide Valid, MapUpTo;
    MapUpToOnlyTx(Prepared(n, epoch, t), |n.pdus|, k);
    TickEnd(n, k, epoch, t);
    hide PackAll, Fires;
  }

  lemma {:induction false} MapUpToOnlyTx(n: Net, hi: nat, k: nat)
    requires Valid(n) && hi <= |n.pdus| && k < |n.pdus| && n.pdus[k].item.dir != Tx
    ensures MapUpTo(n, hi).payload[k] == n.payload[k] && MapUpTo(n, hi).status[k] == n.status[k]
  {
    hide Valid, MapTo;
    if hi > 0 {
      MapUpToOnlyTx(n, hi - 1, k);
      MapToOnlyTx(MapUpTo(n, hi - 1), hi - 1, k);
    }
  }

  lemma {:induction false} MapToOnlyTx(n: Net, c: nat, k: nat)
    requires Valid(n) && c < |n.pdus| && k < |n.pdus| && n.pdus[k].item.dir != Tx
    ensures MapTo(n, c).payload[k] == n.payload[k] && MapTo(n, c).status[k] == n.status[k]
  {
    ContainerFacts(n, c);
    hide Valid, Build, ItemOutcome;
    if Mapping(n, c) {
      assert k !in n.pdus[c].list;
      assert Find(n.pdus[c].list, k) == |n.pdus[c].list|;
    }
  }

  /** Over any run, a container is sent at exactly the steps where it fires and maps something. */
  lemma {:induction false} ContainerTrace(n: Net, ins: seq<Input>, c: nat, t: nat)
    requires Initial(n) && InputsFor(n, ins) && t < |ins| && c < |n.pdus| && DistinctTxIds(n.pdus)
    requires n.pdus[c].IsContainer() && n.pdus[c].item.dir == Tx
    ensures SentAt(n, ins, c, t) <==> exists a :: 0 <= a < |n.pdus[c].list| && MappedAt(n, ins, c, a, t)
    ensures forall a | 0 <= a < |n.pdus[c].list| && MappedAt(n, ins, c, a, t) ::
              FiresAt(n.pdus[c], ins[t].epoch, ins[t].tick)
  {
    hide Valid, Initial, TxStep, Before, After, SentIn, MappedIn, FiresAt, DistinctTxIds, AtStep, ItemOutcome;
    var m, e, tick := AtStep(n, ins, t), ins[t].epoch, ins[t].tick;
    FlagAtStep(n, ins, c, t);
    ContainerSentIff(m, e, tick, c);
    if SentAt(n, ins, c, t) {
      var a :| 0 <= a < |m.pdus[c].list| && MappedIn(m, c, a, e, tick);
      assert MappedAt(n, ins, c, a, t);
    }
    forall a | 0 <= a < |n.pdus[c].list| && MappedAt(n, ins, c, a, t)
      ensures SentAt(n, ins, c, t) && FiresAt(n.pdus[c], e, tick)
    {
      assert MappedIn(m, c, a, e, tick);
    }
  }

  lemma {:induction false} FlagAtStep(n: Net, ins: seq<Input>, c: nat, t: nat)
    requires Initial(n) && InputsFor(n, ins) && t < |ins| && c < |n.pdus|
    requires n.pdus[c].IsContainer() && n.pdus[c].item.dir == Tx
    ensures !AtStep(n, ins, t).status[c].needsTx
  {
    hide Valid, Initial, TxStep, Before, After;
    FlagClear(n, ins, c, t);
    BeforeInStep(After(n, ins[..t]), ins[t], c);
  }

  /** Between steps a container has nothing left to send. */
  lemma {:induction false} FlagClear(n: Net, ins: seq<Input>, c: nat, t: nat)
    requires Initial(n) && InputsFor(n, ins) && t <= |ins| && c < |n.pdus|
    requires n.pdus[c].IsContainer() && n.pdus[c].item.dir == Tx
    ensures !StatusAfter(n, ins, c, t).needsTx
  {
    hide Valid, TxStep, Before, Initial, AtStep;
    if t == 0 {
      InitialFlag(n, c);
    } else {
      AfterNext(n, ins, t - 1);
      FlagSent(AtStep(n, ins, t - 1), c, ins[t - 1].epoch, ins[t - 1].tick);
    }
  }

  lemma {:induction false} InitialFlag(n: Net, c: nat)
    requires Initial(n) && c < |n.pdus|
    ensures !n.status[c].needsTx
  {
    hide Valid;
  }

  lemma {:induction false} FlagSent(n: Net, c: nat, epoch: int, t: nat)
    requires Valid(n) && c < |n.pdus| && n.pdus[c].IsContainer() && n.pdus[c].item.dir == Tx
    ensures !TxStep(n, epoch, t).status[c].needsTx
  {
    hide Valid, TxStep, ReadyToSend, Prepared, MapUpTo;
    ContainerFacts(n, c);
    TickEnd(n, c, epoch, t);
  }

  /** frames are those of the flagged Tx PDUs outside containers among the first k, once each, in their order. */
  ghost predicate FramesOf(n: Net, k: nat, frames: seq<Frame>, sent: seq<nat>)
    requires k <= |n.pdus| == |n.status| == |n.payload|
  {
    && |sent| == |frames| && (forall i, j | 0 <= i < j < |sent| :: sent[i] < sent[j])
    && (forall i | 0 <= i < |sent| ::
          sent[i] < k && frames[i] == Frame(n.pdus[sent[i]].item.id, n.payload[sent[i]]))
    && (forall p | 0 <= p < k ::
          p in sent <==> n.pdus[p].item.dir == Tx && n.pdus[p].item.containerId == 0 && n.status[p].needsTx)
  }

  lemma {:induction false} FramesInOrder(n: Net, k: nat) returns (sent: seq<nat>)
    requires Valid(n) && k <= |n.pdus|
    ensures FramesOf(n, k, FramesUpTo(n, k), sent)
  {
    hide Valid, FramesUpTo, FramesOf;
    if k == 0 {
      sent := [];
      NoFrames(n);
    } else {
      var before := FramesInOrder(n, k - 1);
      FramesAdd(n, k);
      sent := if Sends(n.pdus[k - 1], n.status[k - 1]) then before + [k - 1] else before;
      NextFrame(n, k, FramesUpTo(n, k - 1), before);
    }
  }

  lemma {:induction false} NoFrames(n: Net)
    requires Valid(n)
    ensures FramesOf(n, 0, FramesUpTo(n, 0), [])
  {
    hide Valid;
  }

  lemma {:induction false} NextFrame(n: Net, k: nat, frames: seq<Frame>, sent: seq<nat>)
    requires 0 < k <= |n.pdus| == |n.status| == |n.payload| && FramesOf(n, k - 1, frames, sent)
    ensures if Sends(n.pdus[k - 1], n.status[k - 1])
            then FramesOf(n, k, frames + [Frame(n.pdus[k - 1].item.id, n.payload[k - 1])], sent + [k - 1])
            else FramesOf(n, k, frames, sent)
  {}

  lemma {:induction false} FramesAdd(n: Net, k: nat)
    requires Valid(n) && 0 < k <= |n.pdus|
    ensures FramesUpTo(n, k) ==
            if Sends(n.pdus[k - 1], n.status[k - 1])
            then FramesUpTo(n, k - 1) + [Frame(n.pdus[k - 1].item.id, n.payload[k - 1])]
            else FramesUpTo(n, k - 1)
  {
    hide Valid;
  }

  lemma {:induction false} SentInMeans(n: Net, epoch: int, t: nat, k: nat)
    requires Valid(n) && k < |n.pdus|
    ensures SentIn(n, epoch, t, k) <==> exists f :: f in TxFrames(n, epoch, t) && f.id == n.pdus[k].item.id
  {
    hide Valid, TxFrames;
  }

  lemma {:induction false} MapToContainer(n: Net, c: nat, a: nat)
    requires Valid(n) && c < |n.pdus| && n.pdus[c].IsContainer() && a < |n.pdus[c].list|
    requires Mapping(n, c) && ItemOutcome(n, c, a) == Mapped
    ensures MapTo(n, c).payload[c] == Build(n.pdus[c].item.header, n.pdus[c].item.length, Items(n, c))
    ensures MapTo(n, c).status[c].needsTx
  {
    hide Valid, Build, ItemOutcome;
  }

  /** k' is the I-PDU at position a' of Rx container c', and of no other. */
  ghost predicate InRxContainer(n: Net, k: nat, c: nat, a: nat)
    requires Valid(n)
  {
    && k < |n.pdus| && c < |n.pdus| && n.pdus[c].IsContainer() && n.pdus[c].item.dir == Rx
    && a < |n.pdus[c].list| && n.pdus[c].list[a] == k
    && ListedOnlyIn(n.pdus, k, 0, c) && ListedOnlyIn(n.pdus, k, c + 1, |n.pdus|)
  }

  /** A contained PDU that is mapped arrives, through the container. */
  lemma {:induction false} ContainedArrives(tx: Net, epoch: int, t: nat, k: nat, c: nat, a: nat,
                                            rx: Net, k': nat, c': nat, a': nat)
    requires Valid(tx) && Valid(rx) && DistinctTxIds(tx.pdus)
    requires InContainer(tx, k, c, a) && Settled(tx, k) && !tx.status[c].needsTx && ListCarried(tx, c)
    requires MappedIn(tx, c, a, epoch, t)
    requires InRxContainer(rx, k', c', a') && DistinctList(rx.pdus, c')
    requires rx.pdus[c'].item.header == tx.pdus[c].item.header
    requires rx.pdus[c'].item.id == tx.pdus[c].item.id && rx.pdus[c'].item.length == tx.pdus[c].item.length
    requires rx.pdus[k'].item.id == tx.pdus[k].item.id && rx.pdus[k'].item.length == tx.pdus[k].item.length
    ensures BytesArrive(tx, epoch, t, k, rx, k')
  {
    hide Valid, Prepared, TxStep, TxFrames, ReceivedAll, MapFrom, MapFromUpTo, Build, Settled, Unlisted, MapUpTo,
        ItemOutcome, Parsed, DistinctList, ListCarried, DistinctIds, Carrying, DistinctTxIds;
    var m, frames := AtMapping(tx, c, epoch, t), TxFrames(tx, epoch, t);
    var built := Build(tx.pdus[c].item.header, tx.pdus[c].item.length, Items(m, c));
    ContainerSent(tx, epoch, t, c, a);
    ContainerArrives(rx, frames, c', built);
    var r := MapFromUpTo(ReceivedAll(rx, frames), c');
    var j := MappedAmongSegments(tx, m, c, a);
    SegmentArrives(r, c', a', Parsed(tx.pdus[c].item.header, built), j);
    MapFromUpToAfter(ReceivedAll(rx, frames), c');
    MapFromUpToKeeps(ReceivedAll(rx, frames), k', c' + 1, |rx.pdus|);
    MappedPayload(tx, epoch, t, k, c, a);
  }

  lemma {:induction false} MapFromUpToAfter(n: Net, c: nat)
    requires Valid(n) && c < |n.pdus|
    ensures MapFromUpTo(n, c + 1) == MapFrom(MapFromUpTo(n, c), c)
  {
    hide Valid, MapFrom;
  }

  /** The container itself: it is received, and not touched until it is taken apart. */
  lemma {:induction false} ContainerArrives(rx: Net, frames: seq<Frame>, c: nat, built: seq<byte>)
    requires Valid(rx) && c < |rx.pdus| && rx.pdus[c].IsContainer() && rx.pdus[c].item.dir == Rx
    requires Carrying(frames, rx.pdus[c].item.id, built) && |built| == rx.pdus[c].item.length
    ensures var m := MapFromUpTo(ReceivedAll(rx, frames), c); Unmapping(m, c) && m.payload[c] == built
  {
    hide Valid, ReceivedAll, MapFromUpTo, Carrying;
    ContainerFacts(rx, c);
    FrameArrives(rx, frames, c, built);
    assert ListedOnlyIn(rx.pdus, c, 0, c) by {
      forall d | 0 <= d < c && rx.pdus[d].IsContainer() ensures c !in rx.pdus[d].list {
        ContainerFacts(rx, d);
      }
    }
    MapFromUpToKeeps(ReceivedAll(rx, frames), c, 0, c);
    MapFromNone(ReceivedAll(rx, frames));
  }

  lemma {:induction false} MapFromNone(n: Net)
    requires Valid(n)
    ensures MapFromUpTo(n, 0) == n
  {
    hide Valid;
  }

  lemma {:induction false} SizeFits(n: Net, p: nat)
    requires Valid(n) && p < |n.pdus|
    ensures n.pdus[p].item.length <= SIZE_MAX
  {
    assert ItemOk(n.pdus[p].item);
  }

  /** The parser sees the mapped item among the segments of the built payload. */
  lemma {:induction false} MappedAmongSegments(tx: Net, m: Net, c: nat, a: nat) returns (j: nat)
    requires Valid(tx) && Valid(m) && m.pdus == tx.pdus
    requires c < |tx.pdus| && tx.pdus[c].IsContainer() && ListCarried(tx, c)
    requires a < |tx.pdus[c].list| && ItemOutcome(m, c, a) == Mapped
    ensures var h, items := tx.pdus[c].item.header, Items(m, c);
            var segs := Parsed(h, Build(h, tx.pdus[c].item.length, items));
            && DistinctIds(segs) && j < |segs| && segs[j] == Segment(items[a].id, items[a].payload)
  {
    SizeFits(tx, c);
    hide Valid, Build, Segments, Items, ListCarried, AllCarried, DistinctItems, OutcomeAt, Parsed, LengthsDefined,
        Recurs;
    var h, cap, items := tx.pdus[c].item.header, tx.pdus[c].item.length, Items(m, c);
    ItemsCarried(tx, m, c);
    ParseBuilt(h, cap, items);
    MappedDistinct(h, cap, items);
    j := MappedIsSegment(h, cap, items, a);
  }

  /** What a sender builds from I-PDUs that the header can carry, a receiver parses to the end and within bounds. */
  lemma {:induction false} BuiltDefined(tx: Net, m: Net, c: nat, rx: Net, c': nat)
    requires Valid(tx) && Valid(m) && m.pdus == tx.pdus && c < |tx.pdus| && tx.pdus[c].IsContainer()
    requires Valid(rx) && c' < |rx.pdus| && rx.pdus[c'].item.header == tx.pdus[c].item.header && ListCarried(tx, c)
    requires rx.payload[c'] == Build(tx.pdus[c].item.header, tx.pdus[c].item.length, Items(m, c))
    ensures rx.pdus[c'].IsContainer() && ParseDefined(rx, c')
  {
    SizeFits(tx, c);
    hide Valid, Build, Segments, Items, ListCarried, AllCarried, DistinctItems, Parsed, LengthsDefined, Recurs,
        ParseDefined;
    ItemsCarried(tx, m, c);
    ParseBuilt(tx.pdus[c].item.header, tx.pdus[c].item.length, Items(m, c));
    WithoutWrap(rx, c');
  }

  lemma {:induction false} MappedPayload(tx: Net, epoch: int, t: nat, k: nat, c: nat, a: nat)
    requires Valid(tx) && InContainer(tx, k, c, a)
    ensures AtMapping(tx, c, epoch, t).payload[k] == TxStep(tx, epoch, t).payload[k]
  {
    hide Valid, Prepared, MapTo, ReadyToSend, TxStep;
    var q, m := Prepared(tx, epoch, t), AtMapping(tx, c, epoch, t);
    MapToMember(m, c, a);
    MapUpToNext(q, c);
    MapUpToElsewhere(q, k, c + 1, |tx.pdus|);
    TickEnd(tx, k, epoch, t);
  }

  /** Arrived bytes mean arrived raw values, cut to their length. */
  lemma {:induction false} RawArrives(tx: Net, epoch: int, t: nat, x: nat, rx: Net, x': nat)
    requires Valid(tx) && Valid(rx) && RowsMatch(tx, x, rx, x')
    requires Settled(TxStep(tx, epoch, t), tx.rows[x].pdu)
    requires BytesArrive(tx, epoch, t, tx.rows[x].pdu, rx, rx.rows[x'].pdu)
    ensures RxStep(rx, TxFrames(tx, epoch, t)).raw[x'] ==
        TxStep(tx, epoch, t).raw[x] % Pow2(tx.rows[x].signal.field.length)
  {
    hide Valid, TxStep, TxFrames, RxStep, Settled, FieldValue, Pow2, Disjoint;
    RowDecoded(rx, TxFrames(tx, epoch, t), x');
    FieldHeld(TxStep(tx, epoch, t), x);
  }

  /** A due Tx row is encoded from its physical value; any other keeps its raw value. */
  lemma {:induction false} RawEncoded(tx: Net, epoch: int, t: nat, x: nat)
    requires Valid(tx) && x < |tx.rows| && tx.rows[x].pdu < |tx.pdus| && Carrier(tx.pdus[tx.rows[x].pdu])
    ensures tx.rows[x].signal.scale.Valid()
    ensures TxStep(tx, epoch, t).raw[x] ==
            if Due(tx.pdus[tx.rows[x].pdu], epoch, t) then Encode(tx.rows[x].signal.scale, tx.phys[x], tx.raw[x])
            else tx.raw[x]
  {
    FieldFitsRow(tx, x);
    hide Valid, MapUpTo, PackAll, Fires;
    assert Prepared(tx, epoch, t).raw[x] == EncodedRaw(Scheduled(tx, epoch, t), x);
  }

  /**
   * The raw value of a Tx row in full. It is encoded at every tick if the PDU has no interval, otherwise where its
   * schedule fires; a value outside the limits, or one not scaled, leaves it.
   */
  lemma {:induction false} TxRow(tx: Net, epoch: int, t: nat, x: nat)
    requires Valid(tx) && x < |tx.rows| && tx.rows[x].pdu < |tx.pdus| && tx.pdus[tx.rows[x].pdu].item.dir == Tx
    ensures var p, now := tx.pdus[tx.rows[x].pdu], TxStep(tx, epoch, t).raw[x];
            var fires := FiresAt(p, epoch, t);
            if p.item.header == NoHeader && fires then EncodedAs(tx.rows[x].signal.scale, tx.phys[x], tx.raw[x], now)
            else now == tx.raw[x]
  {
    FieldFitsRow(tx, x);
    EncodeIs(tx.rows[x].signal.scale, tx.phys[x], tx.raw[x]);
    DueIs(tx.pdus[tx.rows[x].pdu], epoch, t);
    hide Valid, MapUpTo, PackAll, Encode, EncodedAs, Due, FiresAt;
    assert Prepared(tx, epoch, t).raw[x] == EncodedRaw(Scheduled(tx, epoch, t), x);
  }

  /** The physical value of an Rx row in full. */
  lemma {:induction false} RxRow(rx: Net, frames: seq<Frame>, x: nat)
    requires Valid(rx) && x < |rx.rows| && rx.rows[x].pdu < |rx.pdus| && rx.pdus[rx.rows[x].pdu].item.dir == Rx
    ensures var r := RxStep(rx, frames); DecodedAs(rx.rows[x].signal.scale, r.raw[x], rx.phys[x], r.phys[x])
  {
    FieldFitsRow(rx, x);
    RowDecoded(rx, frames, x);
    DecodeIs(rx.rows[x].signal.scale, RxStep(rx, frames).raw[x], rx.phys[x]);
    hide Valid, RxStep, FieldValue, Decode, DecodedAs;
  }

  /**
   * End to end: the receiver decodes, from whatever bytes arrived, a value within one step of the one
   * that was encoded, and that value encodes to the same raw.
   */
  lemma {:induction false} ValueArrives(tx: Net, epoch: int, t: nat, x: nat, rx: Net, x': nat, sent: real, was: nat)
    requires Valid(tx) && Valid(rx) && RowsMatch(tx, x, rx, x')
    requires Settled(TxStep(tx, epoch, t), tx.rows[x].pdu)
    requires BytesArrive(tx, epoch, t, tx.rows[x].pdu, rx, rx.rows[x'].pdu)
    requires Representable(tx.rows[x].signal.scale, tx.rows[x].signal.field.length, sent)
    requires TxStep(tx, epoch, t).raw[x] == Encode(tx.rows[x].signal.scale, sent, was)
    requires rx.rows[x'].signal.scale.InRange(
               Physical(TxStep(tx, epoch, t).raw[x], tx.rows[x].signal.scale.factor.value,
                   tx.rows[x].signal.scale.offset.value))
    ensures var s, got := tx.rows[x].signal.scale, RxStep(rx, TxFrames(tx, epoch, t)).phys[x'];
            && Abs(got - sent) < Abs(s.factor.value)
            && (s.InRange(got) ==> Encode(s, got, was) == TxStep(tx, epoch, t).raw[x])
  {
    hide Valid, TxStep, TxFrames, RxStep, Settled, FieldValue, Pow2, Disjoint, BytesArrive, Physical, Steps;
    var s, l := tx.rows[x].signal.scale, tx.rows[x].signal.field.length;
    FieldFitsRow(rx, x');
    RawArrives(tx, epoch, t, x, rx, x');
    RowDecoded(rx, TxFrames(tx, epoch, t), x');
    EncodeFits(s, l, sent, was);
    ModSmall(TxStep(tx, epoch, t).raw[x], Pow2(l));
    DecodeEncode(s, rx.rows[x'].signal.scale, l, sent, was, rx.phys[x']);
  }
}
