/** One Tx and one Rx pass over a PDU network, as functions on its state. */
module Network {
  import opened Binary
  import opened BitCodec
  import opened Checksum
  import opened Container
  import opened Fields
  import opened Matrix
  import opened Scaling

  /** A PDU in the matrix: its item, first row, normalised schedule, and (for a container) its I-PDUs by priority. */
  datatype Pdu = Pdu(item: PduItem, offset: nat, interval: nat, phase: nat, list: seq<nat>)
  {
    predicate IsContainer() { item.header != NoHeader }
    predicate IsContained() { item.containerId != 0 }
    function Fields(): seq<Field> { seq(|item.signals|, k requires 0 <= k < |item.signals| => item.signals[k].field) }
  }

  datatype Status = Status(needsTx: bool, update: bool, checksum: nat)
  datatype Frame = Frame(id: nat, payload: seq<byte>)

  datatype Net = Net(
    pdus: seq<Pdu>, rows: seq<Row>,
    status: seq<Status>, payload: seq<seq<byte>>,
    skip: seq<bool>, phys: seq<real>, raw: seq<nat>)

  // ---- Well-formed networks ----

  ghost predicate Layout(pdus: seq<Pdu>, rows: seq<Row>) {
    && (forall x | 0 <= x < |rows| ::
          && rows[x].pdu < |pdus| && rows[x].sig < |pdus[rows[x].pdu].item.signals|
          && x == pdus[rows[x].pdu].offset + rows[x].sig
          && rows[x].signal == pdus[rows[x].pdu].item.signals[rows[x].sig])
    && (forall p, k | 0 <= p < |pdus| && 0 <= k < |pdus[p].item.signals| ::
          pdus[p].offset + k < |rows| && rows[pdus[p].offset + k] == Row(p, k, pdus[p].item.signals[k]))
    && (forall p | 0 <= p < |pdus| :: pdus[p].offset + |pdus[p].item.signals| <= |rows|)
  }

  lemma {:induction false} RowFacts(order: seq<PduItem>, rows: seq<Row>, x: nat)
    requires RowsOf(order, |order|, rows) && x < |rows|
    ensures rows[x].pdu < |order| && rows[x].sig < |order[rows[x].pdu].signals|
    ensures x == Offset(order, rows[x].pdu) + rows[x].sig && rows[x].signal == order[rows[x].pdu].signals[rows[x].sig]
  {}

  /** The matrix transform produces such a layout. */
  lemma {:induction false} LayoutFromMatrix(order: seq<PduItem>, rows: seq<Row>, pdus: seq<Pdu>)
    requires RowsOf(order, |order|, rows) && |pdus| == |order|
    requires forall p | 0 <= p < |pdus| :: pdus[p].item == order[p] && pdus[p].offset == Offset(order, p)
    ensures Layout(pdus, rows)
  {
    hide RowsOf, Offset;
    forall p, k | 0 <= p < |pdus| && 0 <= k < |pdus[p].item.signals|
      ensures pdus[p].offset + k < |rows| && rows[pdus[p].offset + k] == Row(p, k, pdus[p].item.signals[k])
    {
      RowAt(order, rows, p, k);
    }
    forall p | 0 <= p < |pdus| ensures pdus[p].offset + |pdus[p].item.signals| <= |rows| {
      RowsFit(order, rows, p);
    }
    forall x | 0 <= x < |rows|
      ensures rows[x].pdu < |pdus| && rows[x].sig < |pdus[rows[x].pdu].item.signals|
      ensures x == pdus[rows[x].pdu].offset + rows[x].sig
      ensures rows[x].signal == pdus[rows[x].pdu].item.signals[rows[x].sig]
    {
      RowFacts(order, rows, x);
    }
  }

  lemma {:induction false} RowsFit(order: seq<PduItem>, rows: seq<Row>, p: nat)
    requires RowsOf(order, |order|, rows) && p < |order|
    ensures Offset(order, p) + |order[p].signals| <= |rows|
  {
    OffsetGrows(order, p + 1, |order|);
  }

  /** The checks made when signals are generated; lengths are size_t, and unpacking is defined for at most 64 bits. */
  predicate ItemOk(item: PduItem) {
    && (item.dir == Tx ==> item.length > 0) && item.length <= SIZE_MAX
    && forall k | 0 <= k < |item.signals| ::
         && Fits(item.signals[k].field, item.length) && item.signals[k].scale.Valid()
         && (item.dir == Rx ==> item.signals[k].field.length <= 64)
  }

  /** A container lists I-PDUs of its direction that name it, once each. Containers are not themselves contained. */
  ghost predicate ContainerOk(pdus: seq<Pdu>, c: nat)
    requires c < |pdus|
  {
    pdus[c].IsContainer() ==>
      && !pdus[c].IsContained()
      && (forall a, b | 0 <= a < b < |pdus[c].list| :: pdus[c].list[a] != pdus[c].list[b])
      && (forall a | 0 <= a < |pdus[c].list| ::
            var j := pdus[c].list[a];
            && j < |pdus| && !pdus[j].IsContainer() && pdus[j].IsContained() && pdus[j].item.dir == pdus[c].item.dir
            && pdus[j].item.containerId == pdus[c].item.id)
  }

  function ItemsOf(pdus: seq<Pdu>): (r: seq<PduItem>)
    ensures |r| == |pdus| && forall p | 0 <= p < |pdus| :: r[p] == pdus[p].item
  {
    seq(|pdus|, p requires 0 <= p < |pdus| => pdus[p].item)
  }

  /** It lists all of them, by priority. */
  ghost predicate ListOk(pdus: seq<Pdu>, c: nat)
    requires c < |pdus|
  {
    pdus[c].IsContainer() ==> Lists(ItemsOf(pdus), c, pdus[c].list)
  }

  /** Containers have an id, as 0 stands for no container, and are not themselves contained. */
  predicate TreeOk(order: seq<PduItem>) {
    forall c | 0 <= c < |order| && order[c].header != NoHeader :: order[c].id != 0 && order[c].containerId == 0
  }

  /** So what a container lists are I-PDUs. */
  lemma {:induction false} ListedOk(pdus: seq<Pdu>, c: nat)
    requires c < |pdus| && TreeOk(ItemsOf(pdus)) && ListOk(pdus, c)
    ensures ContainerOk(pdus, c)
  {
    var items := ItemsOf(pdus);
    if pdus[c].IsContainer() {
      forall a | 0 <= a < |pdus[c].list|
        ensures var j := pdus[c].list[a]; j < |pdus| && Names(items[j], items[c]) && !pdus[j].IsContainer()
      {
        var j := pdus[c].list[a];
        assert j in pdus[c].list;
        assert items[c].id != 0;
      }
    }
  }

  ghost predicate Valid(n: Net)
    ensures Valid(n) ==> |n.status| == |n.payload| == |n.pdus| && |n.skip| == |n.phys| == |n.raw| == |n.rows|
    ensures Valid(n) ==> forall p | 0 <= p < |n.pdus| ::
                           && |n.payload[p]| == n.pdus[p].item.length
                           && n.pdus[p].offset + |n.pdus[p].item.signals| <= |n.rows|
                           && AllFit(n.pdus[p].Fields(), n.pdus[p].item.length)
  {
    && |n.status| == |n.payload| == |n.pdus| && |n.skip| == |n.phys| == |n.raw| == |n.rows|
    && Layout(n.pdus, n.rows)
    && (forall p | 0 <= p < |n.pdus| :: |n.payload[p]| == n.pdus[p].item.length && ItemOk(n.pdus[p].item))
    && (forall c | 0 <= c < |n.pdus| :: ContainerOk(n.pdus, c) && ListOk(n.pdus, c))
  }

  // ---- Tx: schedule, encode, pack ----

  /** The tick from which the schedule runs. */
  function Base(p: Pdu, epoch: int): int {
    epoch + p.phase
  }

  /** Whether the schedule of a PDU with an interval fires at tick t. A base before tick 0 never fires. */
  predicate Fires(p: Pdu, epoch: int, t: nat)
    requires p.interval > 0
  {
    0 <= Base(p, epoch) <= t && (t - Base(p, epoch)) % p.interval == 0
  }

  /** A PDU without interval is due at every tick. */
  predicate Due(p: Pdu, epoch: int, t: nat) {
    p.item.dir == Tx && (p.interval == 0 || Fires(p, epoch, t))
  }

  function ScheduleStatus(p: Pdu, s: Status, epoch: int, t: nat): Status {
    if !Due(p, epoch, t) then s
    else if p.IsContainer() then s.(needsTx := true)
    else if p.interval > 0 && p.item.trigger == Periodic then s.(checksum := 0)
    else s
  }

  predicate Skipped(n: Net, epoch: int, t: nat, x: nat)
    requires Valid(n) && x < |n.rows|
  {
    var p := n.pdus[n.rows[x].pdu];
    !(Due(p, epoch, t) && !p.IsContainer())
  }

  ghost function Scheduled(n: Net, epoch: int, t: nat): (r: Net)
    requires Valid(n)
    ensures Valid(r)
  {
    n.(status := seq(|n.pdus|, p requires 0 <= p < |n.pdus| => ScheduleStatus(n.pdus[p], n.status[p], epoch, t)),
       skip := seq(|n.rows|, x requires 0 <= x < |n.rows| => Skipped(n, epoch, t, x)))
  }

  function EncodedRaw(n: Net, x: nat): nat
    requires Valid(n) && x < |n.rows|
  {
    var row := n.rows[x];
    if n.pdus[row.pdu].item.dir == Tx && !n.skip[x] then Encode(row.signal.scale, n.phys[x], n.raw[x]) else n.raw[x]
  }

  ghost function Encoded(n: Net): (r: Net)
    requires Valid(n)
    ensures Valid(r)
  {
    n.(raw := seq(|n.rows|, x requires 0 <= x < |n.rows| => EncodedRaw(n, x)))
  }

  /** The raw values of PDU p's rows. */
  function RawOf(n: Net, p: nat): (r: seq<nat>)
    requires Valid(n) && p < |n.pdus|
    ensures |r| == |n.pdus[p].item.signals|
  {
    n.raw[n.pdus[p].offset..n.pdus[p].offset + |n.pdus[p].item.signals|]
  }

  function PackedPayload(n: Net, p: nat): (q: seq<byte>)
    requires Valid(n) && p < |n.pdus|
    ensures |q| == |n.payload[p]|
  {
    if n.pdus[p].item.dir != Tx then n.payload[p]
    else PackAll(n.payload[p], n.pdus[p].Fields(), RawOf(n, p))
  }

  ghost function Packed(n: Net): (r: Net)
    requires Valid(n)
    ensures Valid(r)
  {
    n.(payload := seq(|n.pdus|, p requires 0 <= p < |n.pdus| => PackedPayload(n, p)))
  }

  // ---- Tx: change detection, containers, frames ----

  function CheckedStatus(p: Pdu, s: Status, payload: seq<byte>): Status {
    if p.item.dir != Tx then s.(needsTx := false)
    else if p.IsContainer() then s
    else if PayloadHash(payload) == s.checksum then s.(needsTx := false)
    else if p.IsContained() then s.(needsTx := true)
    else s.(needsTx := true, checksum := PayloadHash(payload))
  }

  ghost function Checked(n: Net): (r: Net)
    requires Valid(n)
    ensures Valid(r)
  {
    n.(status := seq(|n.pdus|, p requires 0 <= p < |n.pdus| => CheckedStatus(n.pdus[p], n.status[p], n.payload[p])))
  }

  /** What the container offers, in priority order. */
  function Items(n: Net, c: nat): (r: seq<Item>)
    requires Valid(n) && c < |n.pdus| && n.pdus[c].IsContainer()
    ensures |r| == |n.pdus[c].list|
  {
    var list := n.pdus[c].list;
    seq(|list|, a requires 0 <= a < |list| =>
      assert list[a] < |n.pdus| by { assert ContainerOk(n.pdus, c); }
      Item(n.pdus[list[a]].item.id, n.payload[list[a]], n.status[list[a]].needsTx))
  }

  /** What mapping does with the I-PDU at position a of container c. */
  function ItemOutcome(n: Net, c: nat, a: nat): Outcome
    requires Valid(n) && c < |n.pdus| && n.pdus[c].IsContainer() && a < |n.pdus[c].list|
  {
    OutcomeAt(n.pdus[c].item.header, n.pdus[c].item.length, Items(n, c), a)
  }

  function OutcomeStatus(o: Outcome, s: Status, payload: seq<byte>): Status {
    match o
    case Idle => s
    case Delayed => s.(needsTx := false, checksum := 0)
    case Mapped => s.(needsTx := false, checksum := PayloadHash(payload))
  }

  function MapStatus(n: Net, c: nat, p: nat): Status
    requires Valid(n) && c < |n.pdus| && p < |n.pdus| && n.pdus[c].IsContainer()
  {
    var list := n.pdus[c].list;
    var a := Find(list, p);
    if p == c then n.status[p].(needsTx := exists a | 0 <= a < |list| :: ItemOutcome(n, c, a) == Mapped)
    else if a < |list| then OutcomeStatus(ItemOutcome(n, c, a), n.status[p], n.payload[p])
    else n.status[p]
  }

  predicate Mapping(n: Net, c: nat)
    requires Valid(n) && c < |n.pdus|
  {
    n.pdus[c].item.dir == Tx && n.pdus[c].IsContainer() && n.status[c].needsTx
  }

  ghost function MapTo(n: Net, c: nat): (r: Net)
    requires Valid(n) && c < |n.pdus|
    ensures Valid(r) && r.pdus == n.pdus && r.rows == n.rows && r.raw == n.raw && r.phys == n.phys
  {
    if !Mapping(n, c) then n else
    n.(payload := n.payload[c := Build(n.pdus[c].item.header, n.pdus[c].item.length, Items(n, c))],
       status := seq(|n.pdus|, p requires 0 <= p < |n.pdus| => MapStatus(n, c, p)))
  }

  /** The containers among the first k PDUs, visited in order. */
  ghost function MapUpTo(n: Net, k: nat): (r: Net)
    requires Valid(n) && k <= |n.pdus|
    ensures Valid(r) && r.pdus == n.pdus && r.rows == n.rows && r.raw == n.raw && r.phys == n.phys
  {
    if k == 0 then n else MapTo(MapUpTo(n, k - 1), k - 1)
  }

  predicate Sends(p: Pdu, s: Status) {
    p.item.dir == Tx && !p.IsContained() && s.needsTx
  }

  ghost function FramesUpTo(n: Net, k: nat): seq<Frame>
    requires Valid(n) && k <= |n.pdus|
  {
    if k == 0 then [] else
    FramesUpTo(n, k - 1) +
    (if Sends(n.pdus[k - 1], n.status[k - 1]) then [Frame(n.pdus[k - 1].item.id, n.payload[k - 1])] else [])
  }

  function SentStatus(p: Pdu, s: Status): Status {
    if Sends(p, s) then s.(needsTx := false) else s
  }

  ghost function Cleared(n: Net): (r: Net)
    requires Valid(n)
    ensures Valid(r)
  {
    n.(status := seq(|n.pdus|, p requires 0 <= p < |n.pdus| => SentStatus(n.pdus[p], n.status[p])))
  }

  /** The state in which containers are mapped: scheduled, encoded, packed and checked. */
  ghost function Prepared(n: Net, epoch: int, t: nat): (r: Net)
    requires Valid(n)
    ensures Valid(r) && r.pdus == n.pdus && r.rows == n.rows && r.phys == n.phys
  {
    Checked(Packed(Encoded(Scheduled(n, epoch, t))))
  }

  /** The state whose frames go to the bearer. */
  ghost function ReadyToSend(n: Net, epoch: int, t: nat): (r: Net)
    requires Valid(n)
    ensures Valid(r) && r.pdus == n.pdus && r.rows == n.rows && r.phys == n.phys
  {
    MapUpTo(Prepared(n, epoch, t), |n.pdus|)
  }

  ghost function TxStep(n: Net, epoch: int, t: nat): (r: Net)
    requires Valid(n)
    ensures Valid(r) && r.pdus == n.pdus && r.rows == n.rows
  {
    Cleared(ReadyToSend(n, epoch, t))
  }

  ghost function TxFrames(n: Net, epoch: int, t: nat): seq<Frame>
    requires Valid(n)
  {
    FramesUpTo(ReadyToSend(n, epoch, t), |n.pdus|)
  }

  // ---- Rx ----

  predicate Accepts(p: Pdu, f: Frame) {
    p.item.dir == Rx && !p.IsContained() && p.item.id == f.id
  }

  ghost function Received(n: Net, f: Frame): (r: Net)
    requires Valid(n)
    ensures Valid(r) && r.pdus == n.pdus && r.rows == n.rows && r.phys == n.phys
  {
    n.(payload := seq(|n.pdus|, p requires 0 <= p < |n.pdus| =>
         if Accepts(n.pdus[p], f) then CopyInto(n.payload[p], f.payload) else n.payload[p]),
       status := seq(|n.pdus|, p requires 0 <= p < |n.pdus| =>
         if Accepts(n.pdus[p], f) then n.status[p].(update := true) else n.status[p]))
  }

  ghost function ReceivedAll(n: Net, fs: seq<Frame>): (r: Net)
    requires Valid(n)
    ensures Valid(r) && r.pdus == n.pdus && r.rows == n.rows && r.phys == n.phys
  {
    if fs == [] then n else Received(ReceivedAll(n, fs[..|fs| - 1]), fs[|fs| - 1])
  }

  predicate Unmapping(n: Net, c: nat)
    requires Valid(n) && c < |n.pdus|
  {
    n.pdus[c].item.dir == Rx && n.pdus[c].IsContainer() && n.status[c].update
  }

  function ListIds(pdus: seq<Pdu>, list: seq<nat>): (r: seq<nat>)
    requires forall a | 0 <= a < |list| :: list[a] < |pdus|
    ensures |r| == |list|
  {
    seq(|list|, a requires 0 <= a < |list| => pdus[list[a]].item.id)
  }

  function ListPayloads(payload: seq<seq<byte>>, list: seq<nat>): (r: seq<seq<byte>>)
    requires forall a | 0 <= a < |list| :: list[a] < |payload|
    ensures |r| == |list|
  {
    seq(|list|, a requires 0 <= a < |list| => payload[list[a]])
  }

  /** The I-PDU payloads of container c after delivering segs. */
  function Delivered(n: Net, c: nat, segs: seq<Segment>): (r: seq<seq<byte>>)
    requires Valid(n) && c < |n.pdus| && n.pdus[c].IsContainer()
    ensures |r| == |n.pdus[c].list|
  {
    assert ContainerOk(n.pdus, c);
    Deliver(ListIds(n.pdus, n.pdus[c].list), ListPayloads(n.payload, n.pdus[c].list), segs)
  }

  function ListSizes(pdus: seq<Pdu>, list: seq<nat>): (r: seq<nat>)
    requires forall a | 0 <= a < |list| :: list[a] < |pdus|
    ensures |r| == |list|
  {
    seq(|list|, a requires 0 <= a < |list| => pdus[list[a]].item.length)
  }

  /** The parse of container c ends, and copies bytes of the container only. */
  ghost predicate ParseDefined(n: Net, c: nat)
    requires Valid(n) && c < |n.pdus| && n.pdus[c].IsContainer()
  {
    var h, p, list := n.pdus[c].item.header, n.payload[c], n.pdus[c].list;
    assert ContainerOk(n.pdus, c);
    !Recurs(h, p) && CopiesInside(h, p, ListIds(n.pdus, list), ListSizes(n.pdus, list))
  }

  /** It is without a length that wraps around. */
  lemma {:induction false} WithoutWrap(n: Net, c: nat)
    requires Valid(n) && c < |n.pdus| && n.pdus[c].IsContainer()
    requires LengthsDefined(n.pdus[c].item.header, 0, n.payload[c])
    ensures ParseDefined(n, c)
  {
    assert ContainerOk(n.pdus, c);
    var h, p, list := n.pdus[c].item.header, n.payload[c], n.pdus[c].list;
    hide Valid, LengthsDefined, Recurs, CopiesInside, Parsed, Segments;
    DefinedEnds(h, p);
    DefinedCopies(h, p, ListIds(n.pdus, list), ListSizes(n.pdus, list));
  }

  ghost function MapFrom(n: Net, c: nat): (r: Net)
    requires Valid(n) && c < |n.pdus|
    ensures Valid(r) && r.pdus == n.pdus && r.rows == n.rows && r.phys == n.phys
  {
    if !Unmapping(n, c) then n else
    var list := n.pdus[c].list;
    var got := Delivered(n, c, Parsed(n.pdus[c].item.header, n.payload[c]));
    assert ContainerOk(n.pdus, c);
    n.(payload := seq(|n.pdus|, p requires 0 <= p < |n.pdus| =>
         if Find(list, p) < |list| then got[Find(list, p)] else n.payload[p]))
  }

  ghost function MapFromUpTo(n: Net, k: nat): (r: Net)
    requires Valid(n) && k <= |n.pdus|
    ensures Valid(r) && r.pdus == n.pdus && r.rows == n.rows && r.phys == n.phys
  {
    if k == 0 then n else MapFrom(MapFromUpTo(n, k - 1), k - 1)
  }

  function UnpackedRaw(n: Net, x: nat): nat
    requires Valid(n) && x < |n.rows|
  {
    var row := n.rows[x];
    if n.pdus[row.pdu].item.dir == Rx
    then FieldValue(n.payload[row.pdu], row.signal.field.start, row.signal.field.length) else n.raw[x]
  }

  function DecodedPhys(n: Net, x: nat): real
    requires Valid(n) && x < |n.rows|
  {
    var row := n.rows[x];
    if n.pdus[row.pdu].item.dir == Rx then Decode(row.signal.scale, n.raw[x], n.phys[x]) else n.phys[x]
  }

  ghost function Unpacked(n: Net): (r: Net)
    requires Valid(n)
    ensures Valid(r)
  {
    n.(raw := seq(|n.rows|, x requires 0 <= x < |n.rows| => UnpackedRaw(n, x)))
  }

  ghost function Decoded(n: Net): (r: Net)
    requires Valid(n)
    ensures Valid(r)
  {
    n.(phys := seq(|n.rows|, x requires 0 <= x < |n.rows| => DecodedPhys(n, x)),
       status := seq(|n.pdus|, p requires 0 <= p < |n.pdus| => n.status[p].(update := false)))
  }

  ghost function RxStep(n: Net, frames: seq<Frame>): (r: Net)
    requires Valid(n)
    ensures Valid(r) && r.pdus == n.pdus && r.rows == n.rows
  {
    Decoded(Unpacked(MapFromUpTo(ReceivedAll(n, frames), |n.pdus|)))
  }
}
