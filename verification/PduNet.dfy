/** The PDU network as it runs: vectors and payload buffers updated in place, one visitor after another. */
module PduNet {
  import opened Binary
  import opened BitCodec
  import opened Checksum
  import opened Container
  import opened Fields
  import Flexray
  import opened Matrix
  import opened Network
  import opened PduRuns
  import opened Scaling
  import opened Transport

  /** The ranges of the matrix are those of its rows. */
  ghost predicate RangesFit(pdus: seq<Pdu>, rows: seq<Row>, ranges: seq<Range>) {
    RowsOf(ItemsOf(pdus), |pdus|, rows) && RangesOf(ItemsOf(pdus), rows, ranges)
  }

  lemma {:induction false} RangeRows(pdus: seq<Pdu>, rows: seq<Row>, ranges: seq<Range>, k: nat)
    requires RangesFit(pdus, rows, ranges) && k < |ranges|
    ensures ranges[k].length > 0 && ranges[k].offset + ranges[k].length <= |rows|
    ensures forall x | 0 <= x < |rows| ::
              var r := ranges[k];
              rows[x].pdu < |pdus| && (r.offset <= x < r.offset + r.length <==> pdus[rows[x].pdu].item.dir == r.dir)
  {
    var items, r := ItemsOf(pdus), ranges[k];
    assert RangeOf(items, rows, r);
    hide RangesOf, ItemsOf;
    var last := r.offset + r.length - 1;
    InRange(items, rows, r, last);
    forall x | 0 <= x < |rows|
      ensures rows[x].pdu < |pdus| && (r.offset <= x < r.offset + r.length <==> pdus[rows[x].pdu].item.dir == r.dir)
    {
      InRange(items, rows, r, x);
    }
  }

  lemma {:induction false} InRange(order: seq<PduItem>, rows: seq<Row>, r: Range, x: int)
    requires RowsOf(order, |order|, rows) && RangeOf(order, rows, r)
    ensures r.offset <= x < r.offset + r.length <==>
            0 <= x < |rows| && rows[x].pdu < |order| && order[rows[x].pdu].dir == r.dir
    ensures 0 <= x < |rows| ==> rows[x].pdu < |order|
    ensures r.length > 0
  {
    assert 0 <= x < |rows| ==> rows[x].pdu < |order|;
    assert r.offset <= x < r.offset + r.length <==> 0 <= x < |rows| && order[rows[x].pdu].dir == r.dir;
  }

  /** Some range among the first k has direction d. */
  predicate Reached(ranges: seq<Range>, k: nat, d: Direction)
    requires k <= |ranges|
  {
    exists j :: 0 <= j < k && ranges[j].dir == d
  }

  lemma {:induction false} FirstReached(pdus: seq<Pdu>, rows: seq<Row>, ranges: seq<Range>, k: nat)
    requires RangesFit(pdus, rows, ranges) && k < |ranges|
    ensures !Reached(ranges, k, ranges[k].dir)
  {}

  lemma {:induction false} NoRows(pdus: seq<Pdu>, rows: seq<Row>, ranges: seq<Range>, d: Direction)
    requires RangesFit(pdus, rows, ranges) && d != NoDirection && !Reached(ranges, |ranges|, d)
    ensures forall x | 0 <= x < |rows| :: rows[x].pdu < |pdus| && pdus[rows[x].pdu].item.dir != d
  {}

  /** The rows of PDU p are the ones at [offset, offset + count). */
  lemma {:induction false} RowsOfPdu(n: Net, p: nat)
    requires Valid(n) && p < |n.pdus|
    ensures forall x | 0 <= x < |n.rows| ::
              n.rows[x].pdu == p <==> n.pdus[p].offset <= x < n.pdus[p].offset + |n.pdus[p].item.signals|
  {
    forall x | 0 <= x < |n.rows|
      ensures n.rows[x].pdu == p <==> n.pdus[p].offset <= x < n.pdus[p].offset + |n.pdus[p].item.signals|
    {
      FieldFitsRow(n, x);
      hide Valid;
      if n.pdus[p].offset <= x < n.pdus[p].offset + |n.pdus[p].item.signals| {
        RowOf(n, p, x);
      }
    }
  }

  // ---- Packing row by row ----

  /** How many signals of p have rows below x. */
  function RowsBelow(p: Pdu, x: nat): (c: nat)
    ensures c <= |p.item.signals|
  {
    if x <= p.offset then 0 else if x - p.offset >= |p.item.signals| then |p.item.signals| else x - p.offset
  }

  /** The payload of p once the rows below x are packed. */
  function PackedTo(n: Net, p: nat, x: nat): (q: seq<byte>)
    requires Valid(n) && p < |n.pdus|
    ensures |q| == |n.payload[p]|
  {
    var c := RowsBelow(n.pdus[p], x);
    PackAll(n.payload[p], n.pdus[p].Fields()[..c], RawOf(n, p)[..c])
  }

  lemma {:induction false} RowsBelowNext(n: Net, x: nat, p: nat)
    requires Valid(n) && x < |n.rows| && p < |n.pdus|
    ensures RowsBelow(n.pdus[p], x + 1) == RowsBelow(n.pdus[p], x) + if n.rows[x].pdu == p then 1 else 0
    ensures n.rows[x].pdu == p ==> RowsBelow(n.pdus[p], x) == n.rows[x].sig
  {
    RowsOfPdu(n, p);
    FieldFitsRow(n, x);
    hide Valid;
  }

  lemma {:induction false} FitsBelow(fs: seq<Field>, bytes: nat, c: nat)
    requires AllFit(fs, bytes) && c <= |fs|
    ensures AllFit(fs[..c], bytes)
  {}

  lemma {:induction false} PackedToNext(n: Net, x: nat, p: nat)
    requires Valid(n) && x < |n.rows| && p < |n.pdus|
    ensures Fits(n.rows[x].signal.field, |n.payload[p]|) || n.rows[x].pdu != p
    ensures PackedTo(n, p, x + 1) ==
            if n.rows[x].pdu == p then Pack(PackedTo(n, p, x), n.rows[x].signal.field, n.raw[x]) else PackedTo(n, p, x)
  {
    hide Valid, Pack, RawOf, RowsBelow, AllFit;
    RowsBelowNext(n, x, p);
    FieldOfRow(n, x);
    FieldFitsRow(n, x);
    if n.rows[x].pdu == p {
      var fs, raws, c := n.pdus[p].Fields(), RawOf(n, p), RowsBelow(n.pdus[p], x);
      assert fs[..c + 1][..c] == fs[..c] && raws[..c + 1][..c] == raws[..c];
      FitsBelow(fs, |n.payload[p]|, c + 1);
      assert PackedTo(n, p, x + 1) == PackAll(n.payload[p], fs[..c + 1], raws[..c + 1]);
    }
  }

  /** All rows of a PDU lie in the range of its direction. */
  lemma {:induction false} RowsBelowEnds(n: Net, ranges: seq<Range>, k: nat, p: nat)
    requires Valid(n) && RangesFit(n.pdus, n.rows, ranges) && k < |ranges| && p < |n.pdus|
    requires n.pdus[p].item.dir == ranges[k].dir
    ensures RowsBelow(n.pdus[p], ranges[k].offset) == 0
    ensures RowsBelow(n.pdus[p], ranges[k].offset + ranges[k].length) == |n.pdus[p].item.signals|
  {
    RangeRows(n.pdus, n.rows, ranges, k);
    var o, c := n.pdus[p].offset, |n.pdus[p].item.signals|;
    if c > 0 {
      RowOf(n, p, o);
      RowOf(n, p, o + c - 1);
    }
    hide *;
  }

  /** Nothing is packed before the first row of the range, everything after the last. */
  lemma {:induction false} PackedToEnds(n: Net, ranges: seq<Range>, k: nat, p: nat)
    requires Valid(n) && RangesFit(n.pdus, n.rows, ranges) && k < |ranges| && p < |n.pdus|
    requires n.pdus[p].item.dir == ranges[k].dir
    ensures PackedTo(n, p, ranges[k].offset) == n.payload[p]
    ensures var end := ranges[k].offset + ranges[k].length;
            PackedTo(n, p, end) == PackAll(n.payload[p], n.pdus[p].Fields(), RawOf(n, p))
  {
    hide Valid, RangesFit, RawOf, RowsBelow;
    RowsBelowEnds(n, ranges, k, p);
    var c := |n.pdus[p].item.signals|;
    assert n.pdus[p].Fields()[..c] == n.pdus[p].Fields() && RawOf(n, p)[..c] == RawOf(n, p);
  }

  lemma {:induction false} NothingToPack(n: Net, ranges: seq<Range>)
    requires Valid(n) && RangesFit(n.pdus, n.rows, ranges) && !Reached(ranges, |ranges|, Tx)
    ensures Packed(n) == n
  {
    NoRows(n.pdus, n.rows, ranges, Tx);
    hide Valid, RangesFit, Reached, Packed, PackedPayload;
    forall p | 0 <= p < |n.pdus| ensures PackedPayload(n, p) == n.payload[p] {
      NoSignals(n, p);
    }
    PackedSame(n);
  }

  lemma {:induction false} PackedSame(n: Net)
    requires Valid(n) && forall p | 0 <= p < |n.pdus| :: PackedPayload(n, p) == n.payload[p]
    ensures Packed(n) == n
  {
    hide Valid, PackedPayload;
    assert Packed(n).payload == n.payload;
  }

  lemma {:induction false} NoSignals(n: Net, p: nat)
    requires Valid(n) && p < |n.pdus|
    requires n.pdus[p].item.dir == Tx ==> forall x | 0 <= x < |n.rows| :: n.rows[x].pdu != p
    ensures PackedPayload(n, p) == n.payload[p]
  {
    RowsOfPdu(n, p);
    hide Valid, RawOf;
    var x := n.pdus[p].offset;
    assert n.pdus[p].item.dir == Tx && x < |n.rows| ==> n.rows[x].pdu != p;
  }

  lemma {:induction false} FramesStart(n: Net)
    requires Valid(n)
    ensures FramesUpTo(n, 0) == []
  {
    hide Valid;
  }

  lemma {:induction false} FramesNext(n: Net, p: nat)
    requires Valid(n) && p < |n.pdus|
    ensures FramesUpTo(n, p + 1) ==
            if Sends(n.pdus[p], n.status[p]) then FramesUpTo(n, p) + [Frame(n.pdus[p].item.id, n.payload[p])]
            else FramesUpTo(n, p)
  {
    hide Valid;
  }

  /** p with the bytes at off replaced by x. */
  function Overwrite(p: seq<byte>, off: nat, x: seq<byte>): (q: seq<byte>)
    requires off + |x| <= |p|
    ensures |q| == |p|
  {
    p[..off] + x + p[off + |x|..]
  }

  /** Writing x at off and then y behind it. */
  lemma {:induction false} WrittenAt(p: seq<byte>, off: nat, x: seq<byte>, y: seq<byte>)
    requires off + |x| + |y| <= |p|
    ensures Overwrite(Overwrite(p, off, x), off + |x|, y) == Overwrite(p, off, x + y)
  {
    var one := Overwrite(p, off, x);
    assert one[..off + |x|] == p[..off] + x;
    assert one[off + |x| + |y|..] == p[off + |x| + |y|..];
  }

  lemma {:induction false} FullHeader(p: seq<byte>, off: nat, id: nat, len: nat)
    requires off + 8 <= |p|
    ensures var x := [ByteOf(id, 3), ByteOf(id, 2), ByteOf(id, 1), ByteOf(id, 0)];
            var y := [ByteOf(len, 3), ByteOf(len, 2), ByteOf(len, 1), ByteOf(len, 0)];
            Overwrite(Overwrite(p, off, x), off + 4, y) == Overwrite(p, off, Header(Full, id, len))
  {
    hide ByteOf, Overwrite;
    var x := [ByteOf(id, 3), ByteOf(id, 2), ByteOf(id, 1), ByteOf(id, 0)];
    var y := [ByteOf(len, 3), ByteOf(len, 2), ByteOf(len, 1), ByteOf(len, 0)];
    WrittenAt(p, off, x, y);
    assert x + y == Header(Full, id, len);
  }

  // ---- Building a container item by item ----

  /** The status of p once the first i items of container c are offered. */
  ghost function MapStatusTo(n: Net, c: nat, p: nat, i: nat): Status
    requires Valid(n) && c < |n.pdus| && p < |n.pdus| && n.pdus[c].IsContainer() && i <= |n.pdus[c].list|
  {
    var list := n.pdus[c].list;
    var a := Find(list, p);
    if p == c then n.status[p].(needsTx := exists a | 0 <= a < i :: ItemOutcome(n, c, a) == Mapped)
    else if a < i then OutcomeStatus(ItemOutcome(n, c, a), n.status[p], n.payload[p])
    else n.status[p]
  }

  lemma {:induction false} MapStatusToNext(n: Net, c: nat, p: nat, i: nat)
    requires Valid(n) && c < |n.pdus| && p < |n.pdus| && n.pdus[c].IsContainer() && i < |n.pdus[c].list|
    requires forall a, b | 0 <= a < b < |n.pdus[c].list| :: n.pdus[c].list[a] != n.pdus[c].list[b]
    requires n.pdus[c].list[i] != c
    ensures p == n.pdus[c].list[i] ==>
              && MapStatusTo(n, c, p, i) == n.status[p]
              && MapStatusTo(n, c, p, i + 1) == OutcomeStatus(ItemOutcome(n, c, i), n.status[p], n.payload[p])
    ensures p != n.pdus[c].list[i] && p != c ==> MapStatusTo(n, c, p, i + 1) == MapStatusTo(n, c, p, i)
    ensures p == c ==>
              MapStatusTo(n, c, p, i + 1) ==
              (if ItemOutcome(n, c, i) == Mapped then MapStatusTo(n, c, p, i).(needsTx := true) else MapStatusTo(n,
                  c, p, i))
  {
    hide Valid, ItemOutcome;
    FindAt(n.pdus[c].list, i);
  }

  lemma {:induction false} MapStatusToEnds(n: Net, c: nat, p: nat)
    requires Valid(n) && c < |n.pdus| && p < |n.pdus| && n.pdus[c].IsContainer()
    ensures MapStatusTo(n, c, p, 0) == if p == c then n.status[p].(needsTx := false) else n.status[p]
    ensures MapStatusTo(n, c, p, |n.pdus[c].list|) == MapStatus(n, c, p)
  {
    hide Valid, ItemOutcome;
  }

  lemma {:induction false} BuildNext(h: HeaderFormat, capacity: nat, items: seq<Item>, i: nat)
    requires i < |items|
    ensures var used := Used(h, capacity, items[..i]);
            if OutcomeAt(h, capacity, items, i) == Mapped then
              var entry := Entry(h, items[i].id, items[i].payload);
              && |used| + |entry| <= capacity
              && Used(h, capacity, items[..i + 1]) == used + entry
              && Build(h, capacity, items[..i + 1]) == Overwrite(Build(h, capacity, items[..i]), |used|, entry)
            else
              && Used(h, capacity, items[..i + 1]) == used
              && Build(h, capacity, items[..i + 1]) == Build(h, capacity, items[..i])
  {
    assert items[..i + 1][..i] == items[..i];
    hide Entry;
  }

  class PduNet {
    const pdus: seq<Pdu>
    const rows: seq<Row>
    const ranges: seq<Range>
    const payload: seq<array<byte>>
    const stepSize: real
    var status: seq<Status>
    var skip: seq<bool>
    var phys: seq<real>
    var raw: seq<nat>
    var time: nat
    var epochOffset: real
    var cycle: nat

    ghost function Bytes(): (r: seq<seq<byte>>)
      reads payload
      ensures |r| == |payload| && forall p | 0 <= p < |r| :: r[p] == payload[p][..]
    {
      seq(|payload|, p requires 0 <= p < |payload| reads payload => payload[p][..])
    }

    ghost function Abs(): Net
      reads this, payload
    {
      Net(pdus, rows, status, Bytes(), skip, phys, raw)
    }

    ghost predicate Ok()
      reads this, payload
      ensures Ok() ==> Valid(Abs()) && stepSize > 0.0
    {
      && Valid(Abs()) && stepSize > 0.0 && RangesFit(pdus, rows, ranges)
      && forall i, j | 0 <= i < j < |payload| :: payload[i] != payload[j]
    }

    /** The epoch in ticks. */
    function Epoch(): int
      requires stepSize > 0.0
      reads this
    {
      Truncate(epochOffset / stepSize)
    }

    /** It is cut towards zero. */
    lemma {:induction false} EpochIs()
      requires stepSize > 0.0
      ensures var ticks := epochOffset / stepSize;
              Epoch() == if ticks >= 0.0 then ticks.Floor else -((-ticks).Floor)
    {}

    // ---- Schedule ----

    method SetSkip(offset: nat, count: nat, value: bool)
      requires offset + count <= |skip|
      modifies this`skip
      ensures |skip| == |old(skip)|
      ensures forall x | 0 <= x < |skip| :: skip[x] == if offset <= x < offset + count then value else old(skip[x])
    {
      for i := 0 to count
        invariant |skip| == |old(skip)|
        invariant forall x | 0 <= x < |skip| :: skip[x] == if offset <= x < offset + i then value else old(skip[x])
      {
        skip := skip[offset + i := value];
      }
    }

    method SchedulePdu(p: nat)
      requires stepSize > 0.0 && p < |pdus| == |status| && pdus[p].offset + |pdus[p].item.signals| <= |skip|
      modifies this`skip, this`status
      ensures status == old(status)[p := ScheduleStatus(pdus[p], old(status)[p], Epoch(), time)]
      ensures |skip| == |old(skip)|
      ensures forall x | 0 <= x < |skip| :: skip[x] ==
                if pdus[p].offset <= x < pdus[p].offset + |pdus[p].item.signals|
                   && Due(pdus[p], Epoch(), time) && !pdus[p].IsContainer()
                then false else old(skip[x])
    {
      var o := pdus[p];
      if o.item.dir != Tx {
        return;
      }
      if o.interval == 0 {
        if o.item.header != NoHeader {
          status := status[p := status[p].(needsTx := true)];
        } else {
          SetSkip(o.offset, |o.item.signals|, false);
        }
        return;
      }
      var base := Epoch() + o.phase;
      if base < 0 || time < base {
        return;
      }
      var delta := time - base;
      if delta % o.interval != 0 {
        return;
      }
      if o.item.header != NoHeader {
        status := status[p := status[p].(needsTx := true)];
        return;
      }
      SetSkip(o.offset, |o.item.signals|, false);
      if o.item.trigger == Periodic {
        status := status[p := status[p].(checksum := 0)];
      }
    }

    method Schedule()
      requires Ok()
      modifies this`skip, this`status
      ensures Ok() && Abs() == Scheduled(old(Abs()), Epoch(), time)
    {
      hide Valid, RangesFit, Due, ScheduleStatus;
      ghost var n := Abs();
      SetSkip(0, |rows|, true);
      for p := 0 to |pdus|
        invariant |skip| == |rows| && |status| == |pdus|
        invariant forall j | 0 <= j < |pdus| ::
                    status[j] == if j < p then ScheduleStatus(pdus[j], n.status[j], Epoch(), time) else n.status[j]
        invariant forall x | 0 <= x < |rows| ::
                    skip[x] == if rows[x].pdu < p then Skipped(n, Epoch(), time, x) else true
      {
        RowsOfPdu(n, p);
        SchedulePdu(p);
      }
      forall x | 0 <= x < |rows| ensures rows[x].pdu < |pdus| {
        FieldFitsRow(n, x);
      }
      assert Abs() == Scheduled(n, Epoch(), time);
    }

    // ---- Encode and pack ----

    method EncodeLinearRange(k: nat)
      requires Ok() && k < |ranges| && ranges[k].dir == Tx
      modifies this`raw
      ensures Ok() && Abs() == Encoded(old(Abs()))
    {
      hide Valid, RangesFit, Encode, Physical, Steps;
      ghost var n := Abs();
      RangeRows(pdus, rows, ranges, k);
      var r := ranges[k];
      for x := r.offset to r.offset + r.length
        invariant |raw| == |rows|
        invariant forall y | 0 <= y < |rows| :: raw[y] == if r.offset <= y < x then EncodedRaw(n, y) else n.raw[y]
      {
        FieldFitsRow(n, x);
        if !skip[x] {
          EncodeRow(x);
        }
      }
      ghost var e := Encoded(n);
      assert raw == e.raw;
    }

    method EncodeRow(x: nat)
      requires x < |rows| && |phys| == |raw| == |rows| && rows[x].signal.scale.Valid()
      modifies this`raw
      ensures raw == old(raw)[x := Encode(rows[x].signal.scale, phys[x], old(raw)[x])]
    {
      var s := rows[x].signal.scale;
      if s.max.Some? && phys[x] > s.max.value { return; }
      if s.min.Some? && phys[x] < s.min.value { return; }
      if s.factor.None? || s.offset.None? { return; }
      raw := raw[x := ToUint64(Steps(phys[x], s.factor.value, s.offset.value))];
    }

    method EncodeLinear()
      requires Ok()
      modifies this`raw
      ensures Ok() && Abs() == Encoded(old(Abs()))
    {
      hide Valid, RangesFit, Encode;
      ghost var n := Abs();
      for k := 0 to |ranges|
        invariant Ok() && Abs() == if Reached(ranges, k, Tx) then Encoded(n) else n
      {
        if ranges[k].dir == Tx {
          FirstReached(pdus, rows, ranges, k);
          EncodeLinearRange(k);
        }
      }
      if !Reached(ranges, |ranges|, Tx) {
        NoRows(pdus, rows, ranges, Tx);
        assert Encoded(n) == n;
      }
    }

    /** The Tx rows below x are packed. */
    ghost predicate PackedBelow(n: Net, x: nat)
      requires Valid(n) && n.pdus == pdus
      reads payload
    {
      && |payload| == |pdus|
      && (forall p | 0 <= p < |pdus| ::
            payload[p][..] == if pdus[p].item.dir == Tx then PackedTo(n, p, x) else n.payload[p])
    }

    method PackRow(ghost n: Net, x: nat)
      requires Valid(n) && n.pdus == pdus && n.rows == rows && n.raw == raw && PackedBelow(n, x)
      requires x < |rows| && rows[x].pdu < |pdus| && pdus[rows[x].pdu].item.dir == Tx
      requires forall i, j | 0 <= i < j < |payload| :: payload[i] != payload[j]
      modifies payload
      ensures PackedBelow(n, x + 1)
    {
      hide Valid, PackedTo, Pack, IsPacked;
      var p, f := rows[x].pdu, rows[x].signal.field;
      PackedToNext(n, x, p);
      assert payload[p][..] == PackedTo(n, p, x);
      assert payload[p].Length == |n.payload[p]|;
      PackField(payload[p], f.start, f.length, raw[x]);
      PackUnique(PackedTo(n, p, x), payload[p][..], f, raw[x]);
      forall q | 0 <= q < |pdus|
        ensures payload[q][..] == if pdus[q].item.dir == Tx then PackedTo(n, q, x + 1) else n.payload[q]
      {
        PackedToNext(n, x, q);
      }
    }

    method EncodePackRange(k: nat)
      requires Ok() && k < |ranges| && ranges[k].dir == Tx
      modifies payload
      ensures Ok() && Abs() == Packed(old(Abs()))
    {
      hide Valid, RangesFit, PackedBelow;
      ghost var n := Abs();
      RangeUnpacked(n, k);
      PackRows(n, k);
      RangePacked(n, k);
    }

    method PackRows(ghost n: Net, k: nat)
      requires Valid(n) && n.pdus == pdus && n.rows == rows && n.raw == raw
      requires RangesFit(pdus, rows, ranges) && k < |ranges| && ranges[k].dir == Tx
      requires forall i, j | 0 <= i < j < |payload| :: payload[i] != payload[j]
      requires PackedBelow(n, ranges[k].offset)
      modifies payload
      ensures PackedBelow(n, ranges[k].offset + ranges[k].length)
    {
      hide Valid, RangesFit, PackedBelow;
      RangeRows(pdus, rows, ranges, k);
      var r := ranges[k];
      for x := r.offset to r.offset + r.length
        invariant PackedBelow(n, x)
      {
        PackRow(n, x);
      }
    }

    lemma {:induction false} RangeUnpacked(n: Net, k: nat)
      requires Valid(n) && Ok() && n == Abs() && k < |ranges| && ranges[k].dir == Tx
      ensures PackedBelow(n, ranges[k].offset)
    {
      hide Valid, RangesFit, PackedTo, PackAll, RawOf;
      forall p | 0 <= p < |pdus| && pdus[p].item.dir == Tx ensures PackedTo(n, p, ranges[k].offset) == n.payload[p] {
        PackedToEnds(n, ranges, k, p);
      }
    }

    lemma {:induction false} RangePacked(n: Net, k: nat)
      requires Valid(n) && n.pdus == pdus && n.rows == rows && RangesFit(pdus, rows, ranges) && k < |ranges|
      requires n.status == status && n.skip == skip && n.phys == phys && n.raw == raw
      requires ranges[k].dir == Tx && PackedBelow(n, ranges[k].offset + ranges[k].length)
      ensures Abs() == Packed(n)
    {
      hide Valid, RangesFit, PackedTo, PackAll, RawOf;
      var r := Packed(n);
      forall p | 0 <= p < |pdus| ensures Bytes()[p] == r.payload[p] {
        if pdus[p].item.dir == Tx {
          PackedToEnds(n, ranges, k, p);
        }
      }
      assert Bytes() == r.payload;
    }

    method EncodePack()
      requires Ok()
      modifies payload
      ensures Ok() && Abs() == Packed(old(Abs()))
    {
      hide Valid, RangesFit, Packed;
      ghost var n := Abs();
      for k := 0 to |ranges|
        invariant Ok() && Abs() == if Reached(ranges, k, Tx) then Packed(n) else n
      {
        if ranges[k].dir == Tx {
          FirstReached(pdus, rows, ranges, k);
          EncodePackRange(k);
        }
      }
      if !Reached(ranges, |ranges|, Tx) {
        NothingToPack(n, ranges);
      }
    }

    // ---- Change detection ----

    method HashOf(p: nat) returns (csum: nat)
      requires p < |payload|
      ensures csum == PayloadHash(payload[p][..]) == if payload[p].Length == 0 then 0 else Fnv(payload[p][..])
    {
      if payload[p].Length == 0 {
        csum := 0;
      } else {
        csum := Compute(payload[p]);
      }
    }

    method CheckNeedsTx()
      requires Ok()
      modifies this`status
      ensures Ok() && Abs() == Checked(old(Abs()))
    {
      hide Valid, RangesFit, PayloadHash;
      ghost var n := Abs();
      for p := 0 to |pdus|
        invariant |status| == |pdus|
        invariant forall j | 0 <= j < |pdus| ::
                    status[j] == if j < p then CheckedStatus(pdus[j], n.status[j], n.payload[j]) else n.status[j]
      {
        var o := pdus[p];
        if o.item.dir == Tx {
          if o.item.header == NoHeader {
            var csum := HashOf(p);
            if csum != status[p].checksum {
              status := status[p := status[p].(needsTx := true)];
              if o.item.containerId == 0 {
                status := status[p := status[p].(checksum := csum)];
              }
            } else {
              status := status[p := status[p].(needsTx := false)];
            }
          }
        } else {
          status := status[p := status[p].(needsTx := false)];
        }
      }
      assert Abs() == Checked(n);
    }

    // ---- The bearer ----

    method LpduTx() returns (frames: seq<Frame>)
      requires Ok()
      modifies this`status
      ensures Ok() && Abs() == Cleared(old(Abs())) && frames == FramesUpTo(old(Abs()), |pdus|)
    {
      hide Valid, RangesFit, FramesUpTo, CopyInto;
      ghost var n := Abs();
      frames := [];
      FramesStart(n);
      for p := 0 to |pdus|
        invariant |status| == |pdus| && frames == FramesUpTo(n, p)
        invariant forall j | 0 <= j < |pdus| ::
                    status[j] == if j < p then SentStatus(pdus[j], n.status[j]) else n.status[j]
      {
        FramesNext(n, p);
        var o := pdus[p].item;
        if o.dir != Tx { continue; }
        if o.containerId != 0 { continue; }
        if !status[p].needsTx { continue; }
        frames := frames + [Frame(o.id, payload[p][..])];
        status := status[p := status[p].(needsTx := false)];
      }
      assert Abs() == Cleared(n);
    }

    method LpduRx(frames: seq<Frame>)
      requires Ok()
      modifies this`status, payload
      ensures Ok() && Abs() == ReceivedAll(old(Abs()), frames)
    {
      hide Valid, RangesFit;
      ghost var n := Abs();
      assert frames[..0] == [];
      for i := 0 to |frames|
        invariant Ok() && Abs() == ReceivedAll(n, frames[..i])
      {
        assert frames[..i + 1][..i] == frames[..i];
        ReceiveFrame(frames[i]);
      }
      assert frames[..|frames|] == frames;
    }

    /** The first k PDUs have been offered frame f. */
    ghost predicate ReceivedBy(n: Net, f: Frame, k: nat)
      requires Valid(n) && n.pdus == pdus
      reads this, payload
    {
      && |payload| == |status| == |pdus|
      && (forall j | 0 <= j < |pdus| ::
            status[j] == if j < k && Accepts(pdus[j], f) then n.status[j].(update := true) else n.status[j])
      && (forall j | 0 <= j < |pdus| ::
            payload[j][..] == if j < k && Accepts(pdus[j], f) then CopyInto(n.payload[j], f.payload) else n.payload[j])
    }

    method Accept(ghost n: Net, f: Frame, p: nat)
      requires Valid(n) && n.pdus == pdus && p < |pdus| && ReceivedBy(n, f, p)
      requires forall i, j | 0 <= i < j < |payload| :: payload[i] != payload[j]
      modifies this`status, payload[p]
      ensures ReceivedBy(n, f, p + 1)
    {
      hide Valid, CopyInto;
      var o := pdus[p].item;
      if o.dir != Rx { return; }
      if o.containerId != 0 { return; }
      if o.id != f.id { return; }
      assert payload[p][..] == n.payload[p];
      CopyFrom(payload[p], f.payload);
      status := status[p := status[p].(update := true)];
    }

    method ReceiveFrame(f: Frame)
      requires Ok()
      modifies this`status, payload
      ensures Ok() && Abs() == Received(old(Abs()), f)
    {
      hide Valid, RangesFit, CopyInto, Accepts;
      ghost var n := Abs();
      for p := 0 to |pdus|
        invariant ReceivedBy(n, f, p)
      {
        Accept(n, f, p);
      }
      ghost var r := Received(n, f);
      assert status == r.status;
      assert Bytes() == r.payload;
    }

    /** memcpy of at most the buffer's length. */
    static method CopyFrom(a: array<byte>, data: seq<byte>)
      modifies a
      ensures a[..] == CopyInto(old(a[..]), data)
    {
      var len := if |data| > a.Length then a.Length else |data|;
      forall i | 0 <= i < len {
        a[i] := data[i];
      }
      assert a[..] == CopyInto(old(a[..]), data);
    }

    // ---- Containers ----

    static method PutWord(a: array<byte>, off: nat, v: nat)
      requires off + 4 <= a.Length
      modifies a
      ensures a[..] == Overwrite(old(a[..]), off, [ByteOf(v, 3), ByteOf(v, 2), ByteOf(v, 1), ByteOf(v, 0)])
    {
      hide ByteOf;
      a[off] := ByteOf(v, 3);
      a[off + 1] := ByteOf(v, 2);
      a[off + 2] := ByteOf(v, 1);
      a[off + 3] := ByteOf(v, 0);
    }

    static method PutHeader(a: array<byte>, off: nat, h: HeaderFormat, id: nat, len: nat)
      requires off + HeaderLength(h) <= a.Length
      modifies a
      ensures a[..] == Overwrite(old(a[..]), off, Header(h, id, len))
    {
      hide ByteOf;
      match h {
        case Short =>
          a[off] := ByteOf(id, 2);
          a[off + 1] := ByteOf(id, 1);
          a[off + 2] := ByteOf(id, 0);
          a[off + 3] := ByteOf(len, 0);
        case Full =>
          ghost var was := a[..];
          PutWord(a, off, id);
          PutWord(a, off + 4, len);
          FullHeader(was, off, id, len);
        case _ =>
      }
    }

    static method CopyAt(a: array<byte>, off: nat, data: array<byte>, len: nat)
      requires a != data && off + len <= a.Length && len <= data.Length
      modifies a
      ensures a[..] == Overwrite(old(a[..]), off, data[..len])
    {
      forall i | 0 <= i < len {
        a[off + i] := data[i];
      }
    }

    /** Writes one entry at off: the header, then the bytes of data. */
    static method PutEntry(a: array<byte>, off: nat, h: HeaderFormat, id: nat, data: array<byte>)
      requires a != data && off + |Entry(h, id, data[..])| <= a.Length
      modifies a
      ensures a[..] == Overwrite(old(a[..]), off, Entry(h, id, data[..]))
    {
      hide Header, Overwrite;
      var len := data.Length;
      if h == Short {
        len := len % 0x100;
      } else if h == Full {
        len := len % 0x1_0000_0000;
      }
      ghost var was := a[..];
      PutHeader(a, off, h, id, len);
      CopyAt(a, off + HeaderLength(h), data, len);
      WrittenAt(was, off, Header(h, id, len), data[..len]);
      assert data[..][..len] == data[..len];
    }

    /** Offers item i to container c, whose payload holds payloadOffset bytes. */
    method MapItem(ghost n: Net, c: nat, i: nat, payloadOffset: nat) returns (next: nat)
      requires Valid(n) && n.pdus == pdus && c < |pdus| && pdus[c].IsContainer() && i < |pdus[c].list|
      requires |payload| == |status| == |pdus| && forall i, j | 0 <= i < j < |payload| :: payload[i] != payload[j]
      requires pdus[c].list[i] < |pdus| && pdus[c].list[i] != c
      requires var k := pdus[c].list[i]; payload[k][..] == n.payload[k] && status[k] == n.status[k]
      requires var h, cap, items := pdus[c].item.header, pdus[c].item.length, Items(n, c);
               payload[c][..] == Build(h, cap, items[..i]) && payloadOffset == |Used(h, cap, items[..i])|
      modifies this`status, payload[c]
      ensures var h, cap, items := pdus[c].item.header, pdus[c].item.length, Items(n, c);
              payload[c][..] == Build(h, cap, items[..i + 1]) && next == |Used(h, cap, items[..i + 1])|
      ensures var k, o := pdus[c].list[i], ItemOutcome(n, c, i);
              var mapped := old(status)[k := OutcomeStatus(o, n.status[k], n.payload[k])];
              status == if o == Mapped then mapped[c := mapped[c].(needsTx := true)] else mapped
    {
      hide Valid, Build, Used, Entry, PayloadHash;
      var h := pdus[c].item.header;
      var k := pdus[c].list[i];
      BuildNext(h, pdus[c].item.length, Items(n, c), i);
      next := payloadOffset;
      if !status[k].needsTx {
        return;
      }
      var len := payload[k].Length;
      if len + HeaderLength(h) > payload[c].Length - payloadOffset {
        status := status[k := status[k].(needsTx := false, checksum := 0)];
        return;
      }
      var csum := HashOf(k);
      status := status[k := status[k].(checksum := csum)];
      PutEntry(payload[c], payloadOffset, h, pdus[k].item.id, payload[k]);
      next := payloadOffset + HeaderLength(h) + WrittenLength(h, len);
      status := status[c := status[c].(needsTx := true)];
      status := status[k := status[k].(needsTx := false)];
    }

    static method Clear(a: array<byte>)
      modifies a
      ensures a[..] == Zeros(a.Length)
    {
      forall i | 0 <= i < a.Length {
        a[i] := 0;
      }
      assert a[..] == Zeros(a.Length);
    }

    /** Every PDU other than c has its payload of n; the statuses are those after i items. */
    ghost predicate Offered(n: Net, c: nat, i: nat)
      requires Valid(n) && n.pdus == pdus && c < |pdus| && pdus[c].IsContainer() && i <= |pdus[c].list|
      reads this, payload
    {
      && |payload| == |status| == |pdus|
      && (forall p | 0 <= p < |pdus| && p != c :: payload[p][..] == n.payload[p])
      && (forall p | 0 <= p < |pdus| :: status[p] == MapStatusTo(n, c, p, i))
    }

    method OfferItem(ghost n: Net, c: nat, i: nat, payloadOffset: nat) returns (next: nat)
      requires Valid(n) && n.pdus == pdus && c < |pdus| && pdus[c].IsContainer() && i < |pdus[c].list|
      requires forall i, j | 0 <= i < j < |payload| :: payload[i] != payload[j]
      requires Offered(n, c, i) && c < |payload|
      requires var h, cap, items := pdus[c].item.header, pdus[c].item.length, Items(n, c);
               payload[c][..] == Build(h, cap, items[..i]) && payloadOffset == |Used(h, cap, items[..i])|
      modifies this`status, payload[c]
      ensures Offered(n, c, i + 1)
      ensures var h, cap, items := pdus[c].item.header, pdus[c].item.length, Items(n, c);
              payload[c][..] == Build(h, cap, items[..i + 1]) && next == |Used(h, cap, items[..i + 1])|
    {
      hide Valid, Build, Used, ItemOutcome, OutcomeStatus, MapStatusTo;
      ContainerFacts(n, c);
      MapStatusToNext(n, c, pdus[c].list[i], i);
      next := MapItem(n, c, i, payloadOffset);
      forall p | 0 <= p < |pdus| ensures status[p] == MapStatusTo(n, c, p, i + 1) {
        MapStatusToNext(n, c, p, i);
      }
    }

    method MapToContainer(c: nat)
      requires Ok() && c < |pdus|
      modifies this`status, payload
      ensures Ok() && Abs() == MapTo(old(Abs()), c)
    {
      hide Valid, RangesFit, Build, Used, Offered;
      ghost var n := Abs();
      var o := pdus[c];
      if o.item.dir != Tx || o.item.header == NoHeader || !status[c].needsTx {
        return;
      }
      Clear(payload[c]);
      status := status[c := status[c].(needsTx := false)];
      var payloadOffset := 0;
      EmptyContainer(o.item.header, o.item.length, Items(n, c));
      assert Offered(n, c, 0) by { NothingOffered(n, c); }
      for i := 0 to |o.list|
        invariant payload[c][..] == Build(o.item.header, o.item.length, Items(n, c)[..i])
        invariant payloadOffset == |Used(o.item.header, o.item.length, Items(n, c)[..i])|
        invariant Offered(n, c, i)
      {
        payloadOffset := OfferItem(n, c, i, payloadOffset);
      }
      AllOffered(n, c);
    }

    lemma {:induction false} NothingOffered(n: Net, c: nat)
      requires Valid(n) && n.pdus == pdus && c < |pdus| && pdus[c].IsContainer()
      requires |payload| == |status| == |pdus|
      requires forall p | 0 <= p < |pdus| && p != c :: payload[p][..] == n.payload[p]
      requires status == n.status[c := n.status[c].(needsTx := false)]
      ensures Offered(n, c, 0)
    {
      hide Valid, MapStatusTo;
      forall p | 0 <= p < |pdus| ensures status[p] == MapStatusTo(n, c, p, 0) {
        MapStatusToEnds(n, c, p);
      }
    }

    lemma {:induction false} AllOffered(n: Net, c: nat)
      requires Valid(n) && n.pdus == pdus && c < |pdus| && pdus[c].IsContainer() && Mapping(n, c)
      requires n.rows == rows && n.skip == skip && n.phys == phys && n.raw == raw
      requires Offered(n, c, |pdus[c].list|)
      requires payload[c][..] == Build(pdus[c].item.header, pdus[c].item.length, Items(n, c)[..|pdus[c].list|])
      ensures Abs() == MapTo(n, c)
    {
      hide Valid, MapStatusTo, Build, MapStatus;
      var r := MapTo(n, c);
      assert Items(n, c)[..|pdus[c].list|] == Items(n, c);
      forall p | 0 <= p < |pdus| ensures status[p] == r.status[p] {
        MapStatusToEnds(n, c, p);
      }
      assert status == r.status;
      assert Bytes() == r.payload;
    }

    // ---- Taking containers apart ----

    static method ReadHeader(a: array<byte>, off: nat, h: HeaderFormat) returns (id: nat, len: nat)
      requires off + HeaderLength(h) <= a.Length
      ensures id == IdField(h, a[off..]) && len == LengthField(h, a[off..])
    {
      ghost var p := a[off..];
      match h {
        case Short =>
          id := Join(Join(a[off], a[off + 1]), a[off + 2]);
          len := a[off + 3];
          ThreeBytes(p[..3]);
        case Full =>
          id := Join(Join(Join(a[off], a[off + 1]), a[off + 2]), a[off + 3]);
          len := SizeOfInt(Join(Join(Join(a[off + 4], a[off + 5]), a[off + 6]), a[off + 7]));
          FourBytes(p[..4]);
          FourBytes(p[4..8]);
        case _ =>
          id, len := 0, 0;
      }
    }

    /** The position of the first listed I-PDU with the id. */
    method FindListed(list: seq<nat>, id: nat) returns (i: nat)
      requires forall a | 0 <= a < |list| :: list[a] < |pdus|
      ensures i == Find(ListIds(pdus, list), id)
    {
      ghost var ids := ListIds(pdus, list);
      i := 0;
      while i < |list| && pdus[list[i]].item.id != id
        invariant i <= |list| && forall j | 0 <= j < i :: ids[j] != id
      {
        i := i + 1;
      }
      FirstFound(ids, id, i);
    }

    /** Copies at most len of the container's bytes at start to the first listed I-PDU with the id, if there is one. */
    method DeliverTo(c: nat, id: nat, start: nat, len: nat)
      requires Ok() && c < |pdus| && pdus[c].IsContainer() && ContainerOk(pdus, c) && start <= payload[c].Length
      requires CopyFits(pdus, c, id, start, len, payload[c].Length)
      modifies payload
      ensures Ok() && Bytes() == DeliveredTo(pdus, c, old(Bytes()), id, BytesAt(old(payload[c][..]), start, len))
    {
      hide Valid, CopyInto, Find, RangesFit, BytesAt, ListIds;
      var list := pdus[c].list;
      ghost var data := BytesAt(payload[c][..], start, len);
      SameSizes(Abs(), c, id, data);
      ghost var was := Bytes();
      var i := FindListed(list, id);
      if i < |list| {
        var size := if payload[list[i]].Length > len then len else payload[list[i]].Length;
        CopyPart(payload[list[i]][..], payload[c][..], start, len);
        assert payload[c][..][start..start + size] == payload[c][start..start + size];
        CopyFrom(payload[list[i]], payload[c][start..start + size]);
        assert Bytes() == was[list[i] := CopyInto(was[list[i]], data)];
      }
    }

    /** The checks of one round at off: the entry's id and length, where its bytes are, and where the next begins. */
    method ReadEntry(c: nat, off: nat) returns (more: bool, id: nat, start: nat, len: nat, next: nat)
      requires c < |payload| && c < |pdus| && off < payload[c].Length
      ensures more <==> RoundAt(pdus[c].item.header, payload[c][..], off).Some?
      ensures var h, p := pdus[c].item.header, payload[c][..];
              more ==> && id == IdField(h, p[off..]) && len == LengthField(h, p[off..])
                       && start == off + HeaderLength(h) && RoundAt(h, p, off) == Some(next)
    {
      hide IdField, LengthField;
      var h := pdus[c].item.header;
      more, id, start, len, next := false, 0, 0, 0, 0;
      if HeaderLength(h) > payload[c].Length - off {
        return;
      }
      id, len := ReadHeader(payload[c], off, h);
      assert payload[c][..][off..] == payload[c][off..];
      HeaderlessId(h, payload[c][off..]);
      start := off + HeaderLength(h);
      next := (start + len) % (SIZE_MAX + 1);
      more := id != 0 && next <= payload[c].Length;
    }

    lemma {:induction false} PayloadOf(c: nat)
      requires Ok() && c < |pdus|
      ensures |payload| == |pdus| && Abs().pdus == pdus && Valid(Abs()) && Abs().payload == Bytes()
    {
      hide Valid, RangesFit;
    }

    /** One round at off, of at most left: the next position, or more == false at the end. */
    method ParseRound(ghost n: Net, c: nat, off: nat, ghost left: nat) returns (next: nat, more: bool)
      requires Ok() && Valid(n) && n.pdus == pdus && c < |pdus| && pdus[c].IsContainer() && off < |n.payload[c]|
      requires payload[c][..] == n.payload[c] && ParsedTo(n, c, off, left, Bytes()) && ParseDefined(n, c)
      modifies payload
      ensures Ok() && next <= |n.payload[c]| && payload[c][..] == n.payload[c]
      ensures if more then left > 0 && ParsedTo(n, c, next, left - 1, Bytes())
              else ParsedTo(n, c, off, left, Bytes()) && next == off
      ensures !more ==> RoundAt(pdus[c].item.header, n.payload[c], off).None?
    {
      hide Valid, RangesFit, ParsedTo, DeliveredTo, IdField, LengthField, Layout, HeaderLength, ParseDefined, BytesAt,
          CopyFits, RoundAt, ContainerOk, Position, Rounds, Deliver, Parsed, Delivered, Find;
      PayloadOf(c);
      hide Ok, Abs;
      var id, start, len;
      more, id, start, len, next := ReadEntry(c, off);
      if more {
        RoundBounds(pdus[c].item.header, n.payload[c], off);
        ParsedNext(n, c, off, left, Bytes());
        NotListed(n, c);
        DeliverTo(c, id, start, len);
      } else {
        next := off;
      }
    }

    method MapFromContainer(c: nat)
      requires Ok() && c < |pdus|
      requires Unmapping(Abs(), c) ==> ParseDefined(Abs(), c)
      modifies payload
      ensures Ok() && Abs() == MapFrom(old(Abs()), c)
    {
      hide Valid, RangesFit, ParsedTo, ParseDefined, RoundAt;
      ghost var n := Abs();
      var o := pdus[c].item;
      if o.dir != Rx || o.header == NoHeader || !status[c].update {
        return;
      }
      var payloadOffset: nat, more := 0, true;
      ghost var left: nat := |n.payload[c]| + 1;
      NothingParsed(n, c);
      while more && payloadOffset < payload[c].Length
        invariant payloadOffset <= payload[c].Length && Ok()
        invariant payload[c][..] == n.payload[c] && ParsedTo(n, c, payloadOffset, left, Bytes())
        invariant !more ==> RoundAt(o.header, n.payload[c], payloadOffset).None?
        decreases more, left
      {
        payloadOffset, more := ParseRound(n, c, payloadOffset, left);
        if more {
          left := left - 1;
        }
      }
      EndOfRounds(o.header, n.payload[c], payloadOffset);
      AllParsed(n, c, payloadOffset, left, Bytes());
    }

    // ---- Unpack and decode ----

    method DecodeUnpackRange(k: nat)
      requires Ok() && k < |ranges| && ranges[k].dir == Rx
      modifies this`raw
      ensures Ok() && Abs() == Unpacked(old(Abs()))
    {
      hide Valid, RangesFit, FieldValue;
      ghost var n := Abs();
      RangeRows(pdus, rows, ranges, k);
      var r := ranges[k];
      for x := r.offset to r.offset + r.length
        invariant |raw| == |rows|
        invariant forall y | 0 <= y < |rows| :: raw[y] == if r.offset <= y < x then UnpackedRaw(n, y) else n.raw[y]
      {
        FieldFitsRow(n, x);
        var f := rows[x].signal.field;
        var value := UnpackField(payload[rows[x].pdu], f.start, f.length);
        raw := raw[x := value];
      }
      ghost var u := Unpacked(n);
      assert raw == u.raw;
    }

    method DecodeUnpack()
      requires Ok()
      modifies this`raw
      ensures Ok() && Abs() == Unpacked(old(Abs()))
    {
      hide Valid, RangesFit, FieldValue;
      ghost var n := Abs();
      for k := 0 to |ranges|
        invariant Ok() && Abs() == if Reached(ranges, k, Rx) then Unpacked(n) else n
      {
        if ranges[k].dir == Rx {
          FirstReached(pdus, rows, ranges, k);
          DecodeUnpackRange(k);
        }
      }
      if !Reached(ranges, |ranges|, Rx) {
        NoRows(pdus, rows, ranges, Rx);
        assert Unpacked(n).raw == n.raw;
      }
    }

    method DecodeRow(x: nat)
      requires x < |rows| && |phys| == |raw| == |rows|
      modifies this`phys
      ensures phys == old(phys)[x := Decode(rows[x].signal.scale, raw[x], old(phys)[x])]
    {
      var s := rows[x].signal.scale;
      if s.factor.None? || s.offset.None? { return; }
      var val := Physical(raw[x], s.factor.value, s.offset.value);
      if s.max.Some? && val > s.max.value { return; }
      if s.min.Some? && val < s.min.value { return; }
      phys := phys[x := val];
    }

    method DecodeLinearRange(k: nat)
      requires Ok() && k < |ranges| && ranges[k].dir == Rx
      modifies this`phys
      ensures Ok() && Abs() == old(Abs()).(phys := Decoded(old(Abs())).phys)
    {
      hide Valid, RangesFit, Decode;
      ghost var n := Abs();
      RangeRows(pdus, rows, ranges, k);
      var r := ranges[k];
      for x := r.offset to r.offset + r.length
        invariant |phys| == |rows|
        invariant forall y | 0 <= y < |rows| :: phys[y] == if r.offset <= y < x then DecodedPhys(n, y) else n.phys[y]
      {
        DecodeRow(x);
      }
      ghost var d := Decoded(n);
      assert phys == d.phys;
      PhysChanged(n, phys);
    }

    method DecodeLinear()
      requires Ok()
      modifies this`phys
      ensures Ok() && Abs() == old(Abs()).(phys := Decoded(old(Abs())).phys)
    {
      hide Valid, RangesFit, Decode;
      ghost var n := Abs();
      for k := 0 to |ranges|
        invariant Ok() && Abs() == if Reached(ranges, k, Rx) then n.(phys := Decoded(n).phys) else n
      {
        if ranges[k].dir == Rx {
          FirstReached(pdus, rows, ranges, k);
          DecodeLinearRange(k);
        }
      }
      if !Reached(ranges, |ranges|, Rx) {
        NoRows(pdus, rows, ranges, Rx);
        assert Decoded(n).phys == n.phys;
      }
    }

    method ClearUpdateFlags()
      requires Ok()
      modifies this`status
      ensures Ok() && Abs() == old(Abs()).(status := Decoded(old(Abs())).status)
    {
      hide Valid, RangesFit;
      ghost var n := Abs();
      for p := 0 to |pdus|
        invariant |status| == |pdus|
        invariant forall j | 0 <= j < |pdus| ::
                    status[j] == if j < p then n.status[j].(update := false) else n.status[j]
      {
        status := status[p := status[p].(update := false)];
      }
      assert status == Decoded(n).status;
      StatusChanged(n, status);
    }

    // ---- A step ----

    /** Schedules at the simulation time, then encodes, packs, maps and sends. */
    method Transmit(simulationTime: real) returns (frames: seq<Frame>)
      requires Ok()
      modifies this`status, this`skip, this`raw, this`time, payload
      ensures Ok()
      ensures var now := if simulationTime < 0.0 then 0.0 else simulationTime;
              time == ((now + stepSize * 0.01) / stepSize).Floor
      ensures Abs() == TxStep(old(Abs()), Epoch(), time) && frames == TxFrames(old(Abs()), Epoch(), time)
      ensures var ticks := epochOffset / stepSize;
              Epoch() == if ticks >= 0.0 then ticks.Floor else -((-ticks).Floor)
    {
      hide Valid, RangesFit, Scheduled, Encoded, Packed, Checked, MapTo, Cleared, FramesUpTo, Ticks, MapUpTo;
      ghost var n := Abs();
      TicksIs(simulationTime, stepSize);
      time := Ticks(simulationTime, stepSize);
      assert Ok() && Abs() == n && n.pdus == pdus;
      hide Ok, Abs;
      Schedule();
      EncodeLinear();
      EncodePack();
      CheckNeedsTx();
      MapToContainers();
      frames := LpduTx();
      EpochIs();
    }

    /** Maps into the containers, in the order of the matrix. */
    method MapToContainers()
      requires Ok()
      modifies this`status, payload
      ensures Ok() && Abs() == MapUpTo(old(Abs()), |pdus|)
    {
      hide Valid, RangesFit, MapTo, MapUpTo, Ok, Abs;
      ghost var q := Abs();
      SameMatrix();
      MapUpToStart(q);
      for c := 0 to |pdus|
        invariant Ok() && Abs() == MapUpTo(q, c)
      {
        MapUpToNext(q, c);
        MapToContainer(c);
      }
    }

    /** Receives the frames, takes containers apart, then unpacks and decodes. */
    method Receive(frames: seq<Frame>)
      requires Ok() && ReadDefined(Abs(), frames)
      modifies this`status, this`raw, this`phys, payload
      ensures Ok() && Abs() == RxStep(old(Abs()), frames)
    {
      hide Valid, RangesFit, Unpacked, Decoded, MapFrom, MapFromUpTo, ReceivedAll, Unmapping, ParseDefined, ReadDefined;
      ghost var n := Abs();
      SameMatrix();
      hide Ok, Abs;
      LpduRx(frames);
      MapFromContainers(n, frames);
      DecodeSignals();
    }

    /** Takes the received containers apart, in the order of the matrix. */
    method MapFromContainers(ghost n: Net, ghost frames: seq<Frame>)
      requires Valid(n) && ReadDefined(n, frames) && Ok() && Abs() == ReceivedAll(n, frames)
      modifies payload
      ensures Ok() && Abs() == MapFromUpTo(ReceivedAll(n, frames), |pdus|)
    {
      hide Valid, RangesFit, MapFrom, MapFromUpTo, ReceivedAll, Unmapping, ParseDefined, ReadDefined, Ok, Abs;
      ghost var m := ReceivedAll(n, frames);
      SameMatrix();
      MapFromNone(m);
      for c := 0 to |pdus|
        invariant Ok() && Abs() == MapFromUpTo(m, c)
      {
        MapFromNext(n, frames, c);
      }
    }

    method MapFromNext(ghost n: Net, ghost frames: seq<Frame>, c: nat)
      requires Valid(n) && n.pdus == pdus && ReadDefined(n, frames) && Ok() && c < |pdus|
      requires Abs() == MapFromUpTo(ReceivedAll(n, frames), c)
      modifies payload
      ensures Ok() && Abs() == MapFromUpTo(ReceivedAll(n, frames), c + 1)
    {
      hide Valid, RangesFit, MapFrom, MapFromUpTo, ReceivedAll, Unmapping, ParseDefined, ReadDefined, Ok, Abs;
      MapFromUpToAfter(ReceivedAll(n, frames), c);
      UnreadDefined(n, frames, c);
      MapFromContainer(c);
    }

    lemma {:induction false} SameMatrix()
      ensures Abs().pdus == pdus && Abs().rows == rows
    {}

    method DecodeSignals()
      requires Ok()
      modifies this`status, this`raw, this`phys
      ensures Ok() && Abs() == Decoded(Unpacked(old(Abs())))
    {
      hide Valid, RangesFit, Unpacked, Decoded;
      DecodeUnpack();
      ghost var u := Abs();
      DecodeLinear();
      DecodedLater(u, phys);
      ClearUpdateFlags();
    }

    /** A FlexRay status: in a new cycle the epoch becomes the position of the last Tx tick in its cycle. */
    method FlexrayStatus(newCycle: nat, cycleTime: nat)
      requires cycleTime > 0 && stepSize > 0.0
      modifies this`epochOffset, this`cycle
      ensures cycle == newCycle
      ensures newCycle != old(cycle) ==> epochOffset == (time % cycleTime) as real * stepSize
      ensures newCycle != old(cycle) ==> Epoch() == Flexray.Epoch(time, cycleTime)
      ensures newCycle == old(cycle) ==> epochOffset == old(epochOffset)
    {
      if cycle != newCycle {
        var offset := time % cycleTime;
        epochOffset := offset as real * stepSize;
        assert epochOffset / stepSize == offset as real;
        cycle := newCycle;
      }
    }

    // ---- Set-up ----

    /** Flattens the sorted PDUs into the matrix, lists the I-PDUs of each container and allocates the payloads. */
    constructor (order: seq<PduItem>, step: real, epoch: real)
      requires step > 0.0 && SortedByDirection(order) && TreeOk(order)
      requires forall p | 0 <= p < |order| :: ItemOk(order[p])
      ensures ItemsOf(pdus) == order && stepSize == step && epochOffset == epoch && time == 0
      ensures forall p | 0 <= p < |pdus| :: Normalised(pdus[p], step) && pdus[p].offset == Offset(order, p)
      ensures forall c | 0 <= c < |pdus| && pdus[c].IsContainer() :: Lists(order, c, pdus[c].list)
      ensures Ok() && fresh(payload) && Zeroed(Abs())
    {
      hide RowsOf, RangesOf, ContainerOk, ItemOk, ListOk, Lists, PduOf, Offset, Layout, Valid, Zeroed, TreeOk,
          Normalised;
      var offsets, rs := PushRows(order);
      var rgs := EmitRanges(order, rs);
      var lists := SetupContainers(order);
      var ps := seq(|order|, p requires 0 <= p < |order| => PduOf(order[p], offsets[p], lists[p], step));
      var buffers := Allocate(order);
      pdus := ps;
      rows := rs;
      ranges := rgs;
      payload := buffers;
      stepSize := step;
      epochOffset := epoch;
      time, cycle := 0, 0;
      status := seq(|order|, _ => Status(false, false, 0));
      skip := seq(|rs|, _ => false);
      phys := seq(|rs|, _ => 0.0);
      raw := seq(|rs|, _ => 0);
      new;
      assert ItemsOf(pdus) == order;
      LayoutFromMatrix(order, rows, pdus);
      ContainersListed(order, pdus);
      FromMatrix(Abs(), order);
    }

    /** The I-PDUs of every container. */
    static method SetupContainers(order: seq<PduItem>) returns (lists: seq<seq<nat>>)
      ensures |lists| == |order|
      ensures forall c | 0 <= c < |order| && order[c].header != NoHeader :: Lists(order, c, lists[c])
    {
      hide Lists;
      lists := [];
      for c := 0 to |order|
        invariant |lists| == c
        invariant forall d | 0 <= d < c && order[d].header != NoHeader :: Lists(order, d, lists[d])
      {
        var list := [];
        if order[c].header != NoHeader {
          list := ListContained(order, c);
        }
        lists := lists + [list];
      }
    }

    static method Allocate(order: seq<PduItem>) returns (a: seq<array<byte>>)
      ensures |a| == |order| && fresh(a)
      ensures forall i, j | 0 <= i < j < |a| :: a[i] != a[j]
      ensures forall p | 0 <= p < |a| :: a[p][..] == Zeros(order[p].length)
    {
      a := [];
      for p := 0 to |order|
        invariant |a| == p && fresh(a)
        invariant forall i, j | 0 <= i < j < |a| :: a[i] != a[j]
        invariant forall q | 0 <= q < |a| :: a[q][..] == Zeros(order[q].length)
      {
        var b := new byte[order[p].length](_ => 0);
        assert b[..] == Zeros(order[p].length);
        a := a + [b];
      }
    }

    /** Before the first step: checksums of the initial payloads, nothing to send. */
    method Start()
      requires Ok()
      modifies this`status
      ensures Ok() && Abs() == Started(old(Abs()))
    {
      hide Valid, RangesFit, PayloadHash;
      ghost var n := Abs();
      for p := 0 to |pdus|
        invariant |status| == |pdus|
        invariant forall j | 0 <= j < |pdus| ::
                    status[j] == if j < p then StartedStatus(pdus[j], n.status[j], n.payload[j]) else n.status[j]
      {
        if pdus[p].item.dir == Tx {
          var csum := HashOf(p);
          status := status[p := status[p].(checksum := csum)];
        }
        status := status[p := status[p].(needsTx := false)];
      }
      assert status == Started(n).status;
    }
  }

  // ---- Set-up ----

  /** Interval and phase are those of the item, in ticks. */
  ghost predicate Normalised(p: Pdu, step: real)
    requires step > 0.0
  {
    && p.interval == (if p.item.interval > 0.0 then (p.item.interval / step).Floor else 0)
    && p.phase == if p.interval == 0 || p.item.phase == 0.0 then 0
                  else if p.item.phase > 0.0 then p.interval + (p.item.phase / step).Floor % p.interval
                  else p.interval - (-p.item.phase / step).Floor % p.interval
  }

  function PduOf(item: PduItem, offset: nat, list: seq<nat>, step: real): (p: Pdu)
    requires step > 0.0
    ensures p.item == item && p.offset == offset && p.list == list && Normalised(p, step)
  {
    PhaseNormalised(item, step);
    TicksAre(item, step);
    Pdu(item, offset, IntervalTicks(item, step), PhaseTicks(item, step), list)
  }

  lemma {:induction false} ContainersListed(order: seq<PduItem>, pdus: seq<Pdu>)
    requires ItemsOf(pdus) == order && TreeOk(order)
    requires forall c | 0 <= c < |pdus| && pdus[c].IsContainer() :: Lists(order, c, pdus[c].list)
    ensures forall c | 0 <= c < |pdus| :: ContainerOk(pdus, c) && ListOk(pdus, c)
  {
    hide TreeOk, ContainerOk, Lists;
    forall c | 0 <= c < |pdus| ensures ContainerOk(pdus, c) && ListOk(pdus, c) {
      ListedOk(pdus, c);
    }
  }

  /** All payload bytes and raw values are 0. */
  ghost predicate Zeroed(n: Net)
    requires Valid(n)
  {
    && (forall p, i | 0 <= p < |n.pdus| && 0 <= i < |n.payload[p]| :: n.payload[p][i] == 0)
    && (forall x | 0 <= x < |n.rows| :: n.raw[x] == 0)
  }

  function StartedStatus(p: Pdu, s: Status, payload: seq<byte>): Status {
    if p.item.dir == Tx then s.(checksum := PayloadHash(payload), needsTx := false) else s.(needsTx := false)
  }

  ghost function Started(n: Net): (r: Net)
    requires Valid(n)
    ensures Valid(r)
  {
    n.(status := seq(|n.pdus|, p requires 0 <= p < |n.pdus| => StartedStatus(n.pdus[p], n.status[p], n.payload[p])))
  }

  /** A new network, once started, is where every run begins. */
  lemma {:induction false} StartsInitial(n: Net)
    requires Valid(n) && Zeroed(n)
    ensures Initial(Started(n))
  {
    hide Valid, PayloadHash;
  }

  lemma {:induction false} FromMatrix(n: Net, order: seq<PduItem>)
    requires |n.pdus| == |order| && Layout(n.pdus, n.rows)
    requires forall p | 0 <= p < |order| :: n.pdus[p].item == order[p] && ItemOk(order[p])
    requires forall c | 0 <= c < |order| :: ContainerOk(n.pdus, c) && ListOk(n.pdus, c)
    requires |n.status| == |n.payload| == |n.pdus| && |n.skip| == |n.phys| == |n.raw| == |n.rows|
    requires forall p | 0 <= p < |order| :: n.payload[p] == Zeros(order[p].length)
    requires forall x | 0 <= x < |n.rows| :: n.raw[x] == 0
    ensures Valid(n) && Zeroed(n)
  {
    hide Layout, ItemOk, ContainerOk, ListOk;
  }

  // ---- The schedule ----

  lemma {:induction false} TicksIs(simulationTime: real, step: real)
    requires step > 0.0
    ensures Ticks(simulationTime, step) ==
            (((if simulationTime < 0.0 then 0.0 else simulationTime) + step * 0.01) / step).Floor
  {}

  /** The tick of a simulation time. */
  function Ticks(simulationTime: real, step: real): nat
    requires step > 0.0
  {
    var now := if simulationTime < 0.0 then 0.0 else simulationTime;
    assert (now + step * 0.01) / step >= 0.0;
    ((now + step * 0.01) / step).Floor
  }

  lemma {:induction false} MapUpToStart(n: Net)
    requires Valid(n)
    ensures MapUpTo(n, 0) == n
  {
    hide Valid;
  }

  // ---- Receiving ----

  /** The parse of every container received is defined. */
  ghost predicate ReadDefined(n: Net, frames: seq<Frame>)
    requires Valid(n)
  {
    var m := ReceivedAll(n, frames);
    forall c | 0 <= c < |n.pdus| :: Unmapping(m, c) ==> ParseDefined(m, c)
  }

  /** Taking earlier containers apart leaves a container as it was received. */
  lemma {:induction false} ContainerUnread(m: Net, c: nat)
    requires Valid(m) && c < |m.pdus|
    ensures Unmapping(MapFromUpTo(m, c), c) ==> Unmapping(m, c) && MapFromUpTo(m, c).payload[c] == m.payload[c]
  {
    hide Valid, MapFrom;
    if m.pdus[c].IsContainer() {
      assert ListedOnlyIn(m.pdus, c, 0, c) by {
        forall d | 0 <= d < c && m.pdus[d].IsContainer() ensures c !in m.pdus[d].list {
          ContainerFacts(m, d);
        }
      }
      MapFromUpToKeeps(m, c, 0, c);
    }
  }

  lemma {:induction false} UnreadDefined(n: Net, frames: seq<Frame>, c: nat)
    requires Valid(n) && c < |n.pdus| && ReadDefined(n, frames)
    ensures var m := MapFromUpTo(ReceivedAll(n, frames), c);
            Unmapping(m, c) ==> ParseDefined(m, c)
  {
    hide Valid, ReceivedAll, MapFromUpTo, Unmapping, Recurs, CopiesInside;
    ContainerUnread(ReceivedAll(n, frames), c);
  }

  lemma {:induction false} PhysChanged(n: Net, phys: seq<real>)
    requires Valid(n) && |phys| == |n.rows|
    ensures Valid(n.(phys := phys))
  {
    hide Layout, ItemOk, ContainerOk, ListOk;
  }

  lemma {:induction false} StatusChanged(n: Net, status: seq<Status>)
    requires Valid(n) && |status| == |n.pdus|
    ensures Valid(n.(status := status))
  {
    hide Layout, ItemOk, ContainerOk, ListOk;
  }

  /** Decoding and clearing the flags are independent. */
  lemma {:induction false} DecodedLater(n: Net, phys: seq<real>)
    requires Valid(n) && phys == Decoded(n).phys
    ensures Valid(n.(phys := phys)) && n.(phys := phys, status := Decoded(n.(phys := phys)).status) == Decoded(n)
  {
    PhysChanged(n, phys);
    hide Valid, Decode;
  }

  // ---- Parsing a container segment by segment ----

  /** The payloads once data is copied to the first listed I-PDU with the id, if there is one. */
  function DeliveredTo(pdus: seq<Pdu>, c: nat, bytes: seq<seq<byte>>, id: nat, data: seq<byte>): (r: seq<seq<byte>>)
    requires c < |pdus| == |bytes| && forall a | 0 <= a < |pdus[c].list| :: pdus[c].list[a] < |pdus|
    ensures |r| == |bytes|
    ensures forall p | 0 <= p < |bytes| :: |r[p]| == |bytes[p]| && (p !in pdus[c].list ==> r[p] == bytes[p])
  {
    var list := pdus[c].list;
    var k := Find(ListIds(pdus, list), id);
    if k < |list| then bytes[list[k] := CopyInto(bytes[list[k]], data)] else bytes
  }

  /** Parsing container c has got to off, with at most left rounds to go: they deliver what is still missing. */
  ghost predicate ParsedTo(n: Net, c: nat, off: nat, left: nat, bytes: seq<seq<byte>>)
    requires Valid(n) && c < |n.pdus| && n.pdus[c].IsContainer()
    ensures ParsedTo(n, c, off, left, bytes) ==> |bytes| == |n.pdus| && bytes[c] == n.payload[c]
  {
    var h, p, list := n.pdus[c].item.header, n.payload[c], n.pdus[c].list;
    && |bytes| == |n.pdus| && bytes[c] == p
    && (forall q | 0 <= q < |bytes| && q !in list :: bytes[q] == n.payload[q])
    && left <= |p| + 1 && Position(h, p, |p| + 1 - left) == Some(off)
    && (forall a | 0 <= a < |list| :: list[a] < |bytes|)
    && Deliver(ListIds(n.pdus, list), ListPayloads(bytes, list), Rounds(h, p, off, left))
       == Delivered(n, c, Parsed(h, p))
  }

  lemma {:induction false} NothingParsed(n: Net, c: nat)
    requires Valid(n) && c < |n.pdus| && n.pdus[c].IsContainer()
    ensures ParsedTo(n, c, 0, |n.payload[c]| + 1, n.payload)
  {
    hide Valid, Deliver, Rounds;
    ContainerFacts(n, c);
  }

  /** The copy to the I-PDU with the id, if it is listed, stays inside a container of this length. */
  predicate CopyFits(pdus: seq<Pdu>, c: nat, id: nat, start: nat, len: nat, length: nat)
    requires c < |pdus| && forall a | 0 <= a < |pdus[c].list| :: pdus[c].list[a] < |pdus|
  {
    var k := Find(ListIds(pdus, pdus[c].list), id);
    k < |pdus[c].list| ==>
      var size := pdus[pdus[c].list[k]].item.length;
      start + (if size > len then len else size) <= length
  }

  lemma {:induction false} ParsedNext(n: Net, c: nat, off: nat, left: nat, bytes: seq<seq<byte>>)
    requires Valid(n) && c < |n.pdus| && n.pdus[c].IsContainer()
    requires ParsedTo(n, c, off, left, bytes) && ParseDefined(n, c)
    requires RoundAt(n.pdus[c].item.header, n.payload[c], off).Some?
    ensures ContainerOk(n.pdus, c) && left > 0
    ensures var h, p := n.pdus[c].item.header, n.payload[c];
            var start, len, id := off + HeaderLength(h), LengthField(h, p[off..]), IdField(h, p[off..]);
            && CopyFits(n.pdus, c, id, start, len, |p|)
            && ParsedTo(n, c, RoundAt(h, p, off).value, left - 1,
                        DeliveredTo(n.pdus, c, bytes, id, BytesAt(p, start, len)))
  {
    hide Valid, Deliver, Rounds, RoundAt, Position, ParseDefined, IdField, LengthField, DeliveredTo, ListPayloads,
        ListIds, BytesAt, CopyFits, HeaderLength, Parsed, Delivered;
    ContainerFacts(n, c);
    var h, p, list := n.pdus[c].item.header, n.payload[c], n.pdus[c].list;
    ParseEnds(n, c);
    RoundsLeft(h, p, off, left);
    NextFits(n, c, off, |p| + 1 - left);
    RoundBounds(h, p, off);
    RoundDelivered(n.pdus, c, bytes, h, p, off, left);
    assert c !in list;
  }

  lemma {:induction false} ParseEnds(n: Net, c: nat)
    requires Valid(n) && c < |n.pdus| && n.pdus[c].IsContainer() && ParseDefined(n, c)
    ensures !Recurs(n.pdus[c].item.header, n.payload[c])
  {
    hide Valid, Recurs, CopiesInside;
  }

  lemma {:induction false} RoundDelivered(pdus: seq<Pdu>, c: nat, bytes: seq<seq<byte>>, h: HeaderFormat, p: seq<byte>,
                                          off: nat, left: nat)
    requires c < |pdus| == |bytes| && forall a | 0 <= a < |pdus[c].list| :: pdus[c].list[a] < |pdus|
    requires forall i, j | 0 <= i < j < |pdus[c].list| :: pdus[c].list[i] != pdus[c].list[j]
    requires RoundAt(h, p, off).Some? && left > 0
    ensures var list, s := pdus[c].list, SegmentAt(h, p, off);
            var ids, next := ListIds(pdus, list), DeliveredTo(pdus, c, bytes, s.id, s.data);
            Deliver(ids, ListPayloads(next, list), Rounds(h, p, RoundAt(h, p, off).value, left - 1))
            == Deliver(ids, ListPayloads(bytes, list), Rounds(h, p, off, left))
  {
    var list, s := pdus[c].list, SegmentAt(h, p, off);
    hide Deliver, Rounds, RoundAt, SegmentAt, CopyInto, Find, DeliveredTo, ListPayloads, ListIds;
    DeliverNext(ListIds(pdus, list), ListPayloads(bytes, list), h, p, off, left);
    DeliveredToList(pdus, c, bytes, s.id, s.data);
  }

  lemma {:induction false} NextFits(n: Net, c: nat, off: nat, k: nat)
    requires Valid(n) && c < |n.pdus| && n.pdus[c].IsContainer() && ContainerOk(n.pdus, c) && ParseDefined(n, c)
    requires k <= |n.payload[c]| && Position(n.pdus[c].item.header, n.payload[c], k) == Some(off)
    requires RoundAt(n.pdus[c].item.header, n.payload[c], off).Some?
    ensures var h, p := n.pdus[c].item.header, n.payload[c];
            CopyFits(n.pdus, c, IdField(h, p[off..]), off + HeaderLength(h), LengthField(h, p[off..]), |p|)
  {
    var h, p, list := n.pdus[c].item.header, n.payload[c], n.pdus[c].list;
    hide Valid, RoundAt, Position, Recurs, IdField, LengthField, Find, HeaderLength;
    InsideAt(h, p, ListIds(n.pdus, list), ListSizes(n.pdus, list), k);
  }

  lemma {:induction false} InsideAt(h: HeaderFormat, p: seq<byte>, ids: seq<nat>, sizes: seq<nat>, n: nat)
    requires |ids| == |sizes| && CopiesInside(h, p, ids, sizes) && n <= |p| && Position(h, p, n).Some?
    ensures CopyInside(h, p, ids, sizes, Position(h, p, n).value)
  {}

  /** A parse that ends has a round left where one is made. */
  lemma {:induction false} RoundsLeft(h: HeaderFormat, p: seq<byte>, off: nat, left: nat)
    requires !Recurs(h, p) && left <= |p| + 1 && Position(h, p, |p| + 1 - left) == Some(off) && RoundAt(h, p, off).Some?
    ensures left > 0 && Position(h, p, |p| + 1 - (left - 1)) == RoundAt(h, p, off)
  {
    hide Recurs, RoundAt;
    EndsExactly(h, p);
  }

  lemma {:induction false} DeliveredToList(pdus: seq<Pdu>, c: nat, bytes: seq<seq<byte>>, id: nat, data: seq<byte>)
    requires c < |pdus| == |bytes| && forall a | 0 <= a < |pdus[c].list| :: pdus[c].list[a] < |pdus|
    requires forall i, j | 0 <= i < j < |pdus[c].list| :: pdus[c].list[i] != pdus[c].list[j]
    ensures var list := pdus[c].list;
            var was, k := ListPayloads(bytes, list), Find(ListIds(pdus, list), id);
            ListPayloads(DeliveredTo(pdus, c, bytes, id, data), list)
            == if k < |list| then was[k := CopyInto(was[k], data)] else was
  {
    hide CopyInto, Find;
    var list := pdus[c].list;
    var k := Find(ListIds(pdus, list), id);
    if k < |list| {
      ListUpdate(bytes, list, k, CopyInto(bytes[list[k]], data));
    }
  }

  lemma {:induction false} ListUpdate(bytes: seq<seq<byte>>, list: seq<nat>, k: nat, b: seq<byte>)
    requires (forall a | 0 <= a < |list| :: list[a] < |bytes|) && k < |list|
    requires forall i, j | 0 <= i < j < |list| :: list[i] != list[j]
    ensures ListPayloads(bytes[list[k] := b], list) == ListPayloads(bytes, list)[k := b]
  {}

  lemma {:induction false} SameSizes(n: Net, c: nat, id: nat, data: seq<byte>)
    requires Valid(n) && c < |n.pdus| && n.pdus[c].IsContainer()
    ensures ContainerOk(n.pdus, c)
    ensures Valid(n.(payload := DeliveredTo(n.pdus, c, n.payload, id, data)))
  {
    ContainerFacts(n, c);
    hide DeliveredTo, ContainerOk, ListOk, Layout, ItemOk;
  }

  lemma {:induction false} NotListed(n: Net, c: nat)
    requires Valid(n) && c < |n.pdus| && n.pdus[c].IsContainer()
    ensures c !in n.pdus[c].list
  {
    ContainerFacts(n, c);
  }

  lemma {:induction false} AllParsed(n: Net, c: nat, off: nat, left: nat, bytes: seq<seq<byte>>)
    requires Valid(n) && c < |n.pdus| && Unmapping(n, c)
    requires ParsedTo(n, c, off, left, bytes) && Rounds(n.pdus[c].item.header, n.payload[c], off, left) == []
    ensures n.(payload := bytes) == MapFrom(n, c)
  {
    hide Valid, Rounds, Parsed, Delivered, Position;
    ContainerFacts(n, c);
    var r, list := MapFrom(n, c), n.pdus[c].list;
    var got := Delivered(n, c, Parsed(n.pdus[c].item.header, n.payload[c]));
    assert got == ListPayloads(bytes, list);
    forall p | 0 <= p < |bytes| ensures bytes[p] == r.payload[p] {
      if Find(list, p) == |list| {
        assert p !in list;
      }
    }
    assert bytes == r.payload;
  }

  lemma {:induction false} FirstFound(ids: seq<nat>, id: nat, i: nat)
    requires i <= |ids| && (i < |ids| ==> ids[i] == id) && forall j | 0 <= j < i :: ids[j] != id
    ensures Find(ids, id) == i
  {}

  /** Delivering the rounds from off on is delivering the first, then the rest. */
  lemma {:induction false} DeliverNext(ids: seq<nat>, payloads: seq<seq<byte>>, h: HeaderFormat, p: seq<byte>, off: nat,
                                       n: nat)
    requires |ids| == |payloads| && RoundAt(h, p, off).Some? && n > 0
    ensures var s := SegmentAt(h, p, off);
            var k := Find(ids, s.id);
            var next := if k < |ids| then payloads[k := CopyInto(payloads[k], s.data)] else payloads;
            var rest := Rounds(h, p, RoundAt(h, p, off).value, n - 1);
            Deliver(ids, payloads, Rounds(h, p, off, n)) == Deliver(ids, next, rest)
  {
    hide CopyInto, RoundAt, SegmentAt;
    var s, rest := SegmentAt(h, p, off), Rounds(h, p, RoundAt(h, p, off).value, n - 1);
    assert Rounds(h, p, off, n) == [s] + rest;
    assert ([s] + rest)[1..] == rest && ([s] + rest)[0] == s;
  }

  lemma {:induction false} RoundBounds(h: HeaderFormat, p: seq<byte>, off: nat)
    requires RoundAt(h, p, off).Some?
    ensures off + HeaderLength(h) <= |p| && RoundAt(h, p, off).value <= |p|
  {}

  lemma {:induction false} HeaderlessId(h: HeaderFormat, p: seq<byte>)
    requires HeaderLength(h) <= |p|
    ensures IdField(h, p) != 0 ==> h == Short || h == Full
  {}

  lemma {:induction false} EndOfRounds(h: HeaderFormat, p: seq<byte>, off: nat)
    ensures off >= |p| ==> RoundAt(h, p, off).None?
    ensures RoundAt(h, p, off).None? ==> forall n: nat :: Rounds(h, p, off, n) == []
  {}

  /** Copying at most the I-PDU's length takes the same bytes as copying all that the entry announces. */
  lemma {:induction false} CopyPart(q: seq<byte>, p: seq<byte>, start: nat, len: nat)
    requires start <= |p| && start + (if |q| > len then len else |q|) <= |p|
    ensures CopyInto(q, p[start..start + if |q| > len then len else |q|]) == CopyInto(q, BytesAt(p, start, len))
  {}

  lemma {:induction false} EmptyContainer(h: HeaderFormat, capacity: nat, items: seq<Item>)
    ensures Build(h, capacity, items[..0]) == Zeros(capacity) && Used(h, capacity, items[..0]) == []
  {}
}
