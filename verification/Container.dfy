/** Container PDUs: I-PDUs laid out one after another behind length/ID headers, and taken apart again. */
module Container {
  import opened Binary
  import opened Scaling

  datatype HeaderFormat = NoHeader | Static | Short | Full

  function HeaderLength(h: HeaderFormat): nat {
    match h
    case NoHeader => 0
    case Static => 0
    case Short => 4
    case Full => 8
  }

  /** What the packer sees of an I-PDU. */
  datatype Item = Item(id: nat, payload: seq<byte>, pending: bool)
  datatype Segment = Segment(id: nat, data: seq<byte>)
  datatype Outcome = Idle | Delayed | Mapped

  // ---- Writing ----

  /** len after the cast that goes with the header format. */
  function WrittenLength(h: HeaderFormat, len: nat): (r: nat)
    ensures r <= len
  {
    match h
    case Short => len % 0x100
    case Full => len % 0x1_0000_0000
    case _ => len
  }

  /** (uint8_t)(v >> 8 * k) */
  function ByteOf(v: nat, k: nat): byte {
    if k == 0 then v % 256 else ByteOf(v / 256, k - 1)
  }

  function Header(h: HeaderFormat, id: nat, len: nat): (r: seq<byte>)
    ensures |r| == HeaderLength(h)
  {
    match h
    case Short => [ByteOf(id, 2), ByteOf(id, 1), ByteOf(id, 0), ByteOf(len, 0)]
    case Full => [ByteOf(id, 3), ByteOf(id, 2), ByteOf(id, 1), ByteOf(id, 0),
                  ByteOf(len, 3), ByteOf(len, 2), ByteOf(len, 1), ByteOf(len, 0)]
    case _ => []
  }

  function Entry(h: HeaderFormat, id: nat, payload: seq<byte>): (r: seq<byte>)
    ensures |r| == HeaderLength(h) + WrittenLength(h, |payload|)
  {
    var len := WrittenLength(h, |payload|);
    Header(h, id, len) + payload[..len]
  }

  function OutcomeOf(h: HeaderFormat, capacity: nat, used: nat, item: Item): Outcome {
    if !item.pending then Idle
    else if |item.payload| + HeaderLength(h) > capacity - used then Delayed
    else Mapped
  }

  /** The bytes in the container after offering it the items in order. */
  function Used(h: HeaderFormat, capacity: nat, items: seq<Item>): (r: seq<byte>)
    ensures |r| <= capacity
  {
    if items == [] then [] else
    var n := |items| - 1;
    var used := Used(h, capacity, items[..n]);
    if OutcomeOf(h, capacity, |used|, items[n]) == Mapped then used + Entry(h, items[n].id, items[n].payload) else used
  }

  function OutcomeAt(h: HeaderFormat, capacity: nat, items: seq<Item>, k: nat): Outcome
    requires k < |items|
  {
    OutcomeOf(h, capacity, |Used(h, capacity, items[..k])|, items[k])
  }

  function Zeros(n: nat): (r: seq<byte>)
    ensures |r| == n
  {
    seq(n, i => 0)
  }

  /** The container's payload: the entries, then the zero fill. */
  function Build(h: HeaderFormat, capacity: nat, items: seq<Item>): (r: seq<byte>)
    ensures |r| == capacity
  {
    Used(h, capacity, items) + Zeros(capacity - |Used(h, capacity, items)|)
  }

  // ---- Reading ----

  const SIZE_MAX: nat := 0xFFFF_FFFF_FFFF_FFFF

  /** The number with big-endian bytes p. */
  function BigEndian(p: seq<byte>): nat {
    if p == [] then 0 else 256 * BigEndian(p[..|p| - 1]) + p[|p| - 1]
  }

  function IdField(h: HeaderFormat, p: seq<byte>): nat
    requires HeaderLength(h) <= |p|
  {
    match h
    case Short => BigEndian(p[..3])
    case Full => BigEndian(p[..4])
    case _ => 0
  }

  /** A 32-bit length assembled in an int and widened to size_t: from 2^31 on it is negative. */
  function SizeOfInt(len: nat): nat {
    if len < 0x8000_0000 then len else SIZE_MAX + 1 - 0x1_0000_0000 + len
  }

  function LengthField(h: HeaderFormat, p: seq<byte>): nat
    requires HeaderLength(h) <= |p|
  {
    match h
    case Short => p[3]
    case Full => SizeOfInt(BigEndian(p[4..8]))
    case _ => 0
  }

  /** An entry follows: a header with a non-zero id, and all the bytes it announces. */
  predicate HasEntry(h: HeaderFormat, p: seq<byte>) {
    && (h == Short || h == Full) && HeaderLength(h) <= |p| && IdField(h, p) != 0
    && HeaderLength(h) + LengthField(h, p) <= |p|
  }

  function Segments(h: HeaderFormat, p: seq<byte>): seq<Segment>
    decreases |p|
  {
    if !HasEntry(h, p) then [] else
    var hl, len := HeaderLength(h), LengthField(h, p);
    [Segment(IdField(h, p), p[hl..hl + len])] + Segments(h, p[hl + len..])
  }

  /** No entry met while parsing at off has a length that takes the position past SIZE_MAX, where it wraps around. */
  predicate LengthsDefined(h: HeaderFormat, off: nat, p: seq<byte>)
    decreases |p|
  {
    (h == Short || h == Full) && HeaderLength(h) <= |p| && IdField(h, p) != 0 ==>
      var end := HeaderLength(h) + LengthField(h, p);
      off + end <= SIZE_MAX && (HasEntry(h, p) ==> LengthsDefined(h, off + end, p[end..]))
  }

  // ---- Parsing what was built gives what was mapped ----

  /** The mapped items, in order. */
  function MappedSegments(h: HeaderFormat, capacity: nat, items: seq<Item>): seq<Segment> {
    if items == [] then [] else
    var n := |items| - 1;
    MappedSegments(h, capacity, items[..n]) +
    (if OutcomeAt(h, capacity, items, n) == Mapped then [Segment(items[n].id, items[n].payload)] else [])
  }

  /** Ids and lengths that the header format can carry. */
  predicate Carries(h: HeaderFormat, s: Segment) {
    match h
    case Short => 0 < s.id < 0x100_0000 && |s.data| < 0x100
    case Full => 0 < s.id < 0x1_0000_0000 && |s.data| < 0x8000_0000
    case _ => false
  }

  function Entries(h: HeaderFormat, segs: seq<Segment>): seq<byte> {
    if segs == [] then [] else Entry(h, segs[0].id, segs[0].data) + Entries(h, segs[1..])
  }

  lemma {:induction false} EntriesAppend(h: HeaderFormat, segs: seq<Segment>, s: Segment)
    ensures Entries(h, segs + [s]) == Entries(h, segs) + Entry(h, s.id, s.data)
  {
    if segs == [] {
      assert segs + [s] == [s];
      assert Entries(h, [s]) == Entry(h, s.id, s.data) + Entries(h, []);
    } else {
      assert (segs + [s])[1..] == segs[1..] + [s];
      EntriesAppend(h, segs[1..], s);
    }
  }

  lemma {:induction false} UsedIsEntries(h: HeaderFormat, capacity: nat, items: seq<Item>)
    ensures Used(h, capacity, items) == Entries(h, MappedSegments(h, capacity, items))
  {
    if items != [] {
      var n := |items| - 1;
      UsedIsEntries(h, capacity, items[..n]);
      var segs := MappedSegments(h, capacity, items[..n]);
      EntriesAppend(h, segs, Segment(items[n].id, items[n].payload));
      assert segs + [] == segs;
    }
  }

  /** high << 8 | low */
  function Join(high: nat, low: byte): nat {
    256 * high + low
  }

  lemma {:induction false} ThreeBytes(p: seq<byte>)
    requires |p| == 3
    ensures BigEndian(p) == Join(Join(p[0], p[1]), p[2])
  {
    assert p[..2][..1] == [p[0]] && [p[0]][..0] == [];
    assert BigEndian(p[..2]) == 256 * BigEndian(p[..2][..1]) + p[1];
    assert BigEndian([p[0]]) == p[0];
  }

  lemma {:induction false} FourBytes(p: seq<byte>)
    requires |p| == 4
    ensures BigEndian(p) == Join(Join(Join(p[0], p[1]), p[2]), p[3])
  {
    ThreeBytes(p[..3]);
  }

  lemma {:induction false} BytesOf(v: nat)
    ensures ByteOf(v, 0) == v % 256 && ByteOf(v, 1) == v / 256 % 256 && ByteOf(v, 2) == v / 256 / 256 % 256
    ensures ByteOf(v, 3) == v / 256 / 256 / 256 % 256
  {
    var u, t := v / 256, v / 256 / 256;
    assert ByteOf(t, 1) == ByteOf(t / 256, 0) && ByteOf(u, 1) == ByteOf(t, 0) && ByteOf(v, 1) == ByteOf(u, 0);
    assert ByteOf(u, 2) == ByteOf(t, 1) && ByteOf(v, 2) == ByteOf(u, 1);
    assert ByteOf(v, 3) == ByteOf(u, 2);
  }

  lemma {:induction false} BytesOfNumber(v: nat)
    requires v < 0x1_0000_0000
    ensures BigEndian([ByteOf(v, 3), ByteOf(v, 2), ByteOf(v, 1), ByteOf(v, 0)]) == v
    ensures v < 0x100_0000 ==> BigEndian([ByteOf(v, 2), ByteOf(v, 1), ByteOf(v, 0)]) == v
  {
    hide ByteOf, BigEndian;
    BytesOf(v);
    var u, t := v / 256, v / 256 / 256;
    assert v == 256 * u + v % 256 && u == 256 * t + u % 256 && t == 256 * (t / 256) + t % 256 && t / 256 < 256;
    var a: byte, b: byte, c: byte, d: byte := ByteOf(v, 3), ByteOf(v, 2), ByteOf(v, 1), ByteOf(v, 0);
    ThreeBytes([b, c, d]);
    FourBytes([a, b, c, d]);
    assert BigEndian([a, b, c, d]) == v;
    assert v < 0x100_0000 ==> BigEndian([b, c, d]) == v;
  }

  lemma {:induction false} HeaderRead(h: HeaderFormat, s: Segment, rest: seq<byte>)
    requires Carries(h, s)
    ensures var p := Entry(h, s.id, s.data) + rest;
            && HasEntry(h, p) && IdField(h, p) == s.id && LengthField(h, p) == |s.data|
            && p[HeaderLength(h)..HeaderLength(h) + |s.data|] == s.data
            && p[HeaderLength(h) + |s.data|..] == rest && |p| == HeaderLength(h) + |s.data| + |rest|
  {
    hide ByteOf, BigEndian;
    var p := Entry(h, s.id, s.data) + rest;
    BytesOfNumber(s.id);
    BytesOfNumber(|s.data|);
    match h
    case Short => assert p[..3] == [ByteOf(s.id, 2), ByteOf(s.id, 1), ByteOf(s.id, 0)];
      BytesOf(|s.data|);
    case Full =>
      assert p[..4] == [ByteOf(s.id, 3), ByteOf(s.id, 2), ByteOf(s.id, 1), ByteOf(s.id, 0)];
      assert p[4..8] == [ByteOf(|s.data|, 3), ByteOf(|s.data|, 2), ByteOf(|s.data|, 1), ByteOf(|s.data|, 0)];
  }

  lemma {:induction false} ZerosHaveNoEntry(h: HeaderFormat, n: nat)
    ensures !HasEntry(h, Zeros(n)) && (HeaderLength(h) <= n ==> LengthField(h, Zeros(n)) == 0)
  {
    if HeaderLength(h) <= n && (h == Short || h == Full) {
      BigEndianZeros(Zeros(n)[..3]);
      if h == Full {
        BigEndianZeros(Zeros(n)[..4]);
        BigEndianZeros(Zeros(n)[4..8]);
      }
    }
  }

  lemma {:induction false} BigEndianZeros(p: seq<byte>)
    requires forall i | 0 <= i < |p| :: p[i] == 0
    ensures BigEndian(p) == 0
  {
    if p != [] {
      BigEndianZeros(p[..|p| - 1]);
    }
  }

  /** The parser recovers every entry, in order, and stops at the zero fill. */
  lemma {:induction false} ParseEntries(h: HeaderFormat, segs: seq<Segment>, n: nat)
    requires forall i | 0 <= i < |segs| :: Carries(h, segs[i])
    ensures Segments(h, Entries(h, segs) + Zeros(n)) == segs
  {
    if segs == [] {
      assert Entries(h, segs) + Zeros(n) == Zeros(n);
      ZerosHaveNoEntry(h, n);
      hide *;
    } else {
      hide Entry, Zeros, WrittenLength, ByteOf, BigEndian, Header, IdField, HasEntry;
      var rest := Entries(h, segs[1..]) + Zeros(n);
      var p := Entries(h, segs) + Zeros(n);
      ParseEntries(h, segs[1..], n);
      HeaderRead(h, segs[0], rest);
      assert p == Entry(h, segs[0].id, segs[0].data) + rest;
    }
  }

  lemma {:induction false} DefinedFirst(h: HeaderFormat, off: nat, p: seq<byte>)
    requires HasEntry(h, p)
    requires var end := HeaderLength(h) + LengthField(h, p);
             off + end <= SIZE_MAX && LengthsDefined(h, off + end, p[end..])
    ensures LengthsDefined(h, off, p)
  {
    hide IdField, LengthField;
  }

  lemma {:induction false} ZerosDefined(h: HeaderFormat, off: nat, n: nat)
    requires off + n <= SIZE_MAX
    ensures LengthsDefined(h, off, Zeros(n))
  {
    ZerosHaveNoEntry(h, n);
    hide Zeros, IdField, LengthField, HasEntry;
  }

  lemma {:induction false} EntriesDefined(h: HeaderFormat, segs: seq<Segment>, off: nat, n: nat)
    requires (forall i | 0 <= i < |segs| :: Carries(h, segs[i])) && off + |Entries(h, segs)| + n <= SIZE_MAX
    ensures LengthsDefined(h, off, Entries(h, segs) + Zeros(n))
  {
    hide Entry, Zeros, Carries, HeaderLength, IdField, HasEntry, LengthField, LengthsDefined;
    if segs == [] {
      assert Entries(h, segs) + Zeros(n) == Zeros(n);
      ZerosDefined(h, off, n);
    } else {
      var rest, p := Entries(h, segs[1..]) + Zeros(n), Entries(h, segs) + Zeros(n);
      HeaderRead(h, segs[0], rest);
      assert p == Entry(h, segs[0].id, segs[0].data) + rest;
      EntriesDefined(h, segs[1..], off + HeaderLength(h) + |segs[0].data|, n);
      DefinedFirst(h, off, p);
    }
  }

  predicate AllCarried(h: HeaderFormat, items: seq<Item>) {
    forall i | 0 <= i < |items| :: Carries(h, Segment(items[i].id, items[i].payload))
  }

  lemma {:induction false} MappedCarried(h: HeaderFormat, capacity: nat, items: seq<Item>)
    requires AllCarried(h, items)
    ensures forall i | 0 <= i < |MappedSegments(h, capacity, items)| ::
              Carries(h, MappedSegments(h, capacity, items)[i])
  {
    if items != [] {
      MappedCarried(h, capacity, items[..|items| - 1]);
    }
  }

  /** Item k is mapped exactly when its id and bytes are among the segments. */
  lemma {:induction false} MappedIsSegment(h: HeaderFormat, capacity: nat, items: seq<Item>, k: nat) returns (j: nat)
    requires k < |items| && OutcomeAt(h, capacity, items, k) == Mapped
    ensures j < |MappedSegments(h, capacity, items)|
    ensures MappedSegments(h, capacity, items)[j] == Segment(items[k].id, items[k].payload)
  {
    var n := |items| - 1;
    if k == n {
      j := |MappedSegments(h, capacity, items[..n])|;
    } else {
      assert items[..n][..k] == items[..k];
      j := MappedIsSegment(h, capacity, items[..n], k);
    }
  }

  lemma {:induction false} SegmentIsMapped(h: HeaderFormat, capacity: nat, items: seq<Item>, j: nat) returns (k: nat)
    requires j < |MappedSegments(h, capacity, items)|
    ensures k < |items| && OutcomeAt(h, capacity, items, k) == Mapped
    ensures MappedSegments(h, capacity, items)[j] == Segment(items[k].id, items[k].payload)
  {
    var n := |items| - 1;
    if j < |MappedSegments(h, capacity, items[..n])| {
      k := SegmentIsMapped(h, capacity, items[..n], j);
      assert items[..n][..k] == items[..k];
    } else {
      k := n;
    }
  }

  predicate DistinctIds(segs: seq<Segment>) {
    forall i, j | 0 <= i < j < |segs| :: segs[i].id != segs[j].id
  }

  predicate DistinctItems(items: seq<Item>) {
    forall i, j | 0 <= i < j < |items| :: items[i].id != items[j].id
  }

  lemma {:induction false} MappedDistinct(h: HeaderFormat, capacity: nat, items: seq<Item>)
    requires DistinctItems(items)
    ensures DistinctIds(MappedSegments(h, capacity, items))
  {
    if items != [] {
      var n := |items| - 1;
      var segs := MappedSegments(h, capacity, items[..n]);
      MappedDistinct(h, capacity, items[..n]);
      forall i | 0 <= i < |segs| ensures segs[i].id != items[n].id {
        var k := SegmentIsMapped(h, capacity, items[..n], i);
      }
    }
  }

  // ---- Delivering segments to the receiver's I-PDUs ----

  /** memcpy of at most the receiver's length. */
  function CopyInto(p: seq<byte>, data: seq<byte>): (r: seq<byte>)
    ensures |r| == |p|
  {
    if |data| >= |p| then data[..|p|] else data + p[|data|..]
  }

  /** The first position of id. */
  function Find(ids: seq<nat>, id: nat): (k: nat)
    ensures k <= |ids| && (k < |ids| ==> ids[k] == id)
    ensures forall i | 0 <= i < k :: ids[i] != id
  {
    if ids == [] || ids[0] == id then 0 else 1 + Find(ids[1..], id)
  }

  function Deliver(ids: seq<nat>, payloads: seq<seq<byte>>, segs: seq<Segment>): (r: seq<seq<byte>>)
    requires |ids| == |payloads|
    ensures |r| == |payloads|
    ensures forall i | 0 <= i < |r| :: |r[i]| == |payloads[i]|
    decreases |segs|
  {
    if segs == [] then payloads else
    var k := Find(ids, segs[0].id);
    Deliver(ids, if k < |ids| then payloads[k := CopyInto(payloads[k], segs[0].data)] else payloads, segs[1..])
  }

  /** An I-PDU that no segment names keeps its bytes; unknown ids disturb nothing. */
  lemma {:induction false} DeliverMiss(ids: seq<nat>, payloads: seq<seq<byte>>, segs: seq<Segment>, k: nat)
    requires |ids| == |payloads| && k < |ids|
    requires forall j | 0 <= j < |segs| :: segs[j].id != ids[k]
    ensures Deliver(ids, payloads, segs)[k] == payloads[k]
    decreases |segs|
  {
    if segs != [] {
      var f := Find(ids, segs[0].id);
      assert f < |ids| ==> ids[f] == segs[0].id;
      var next := if f < |ids| then payloads[f := CopyInto(payloads[f], segs[0].data)] else payloads;
      DeliverMiss(ids, next, segs[1..], k);
    }
  }

  /** A segment reaches the I-PDU with its id, whatever else is delivered. */
  lemma {:induction false} DeliverHit(ids: seq<nat>, payloads: seq<seq<byte>>, segs: seq<Segment>, j: nat, k: nat)
    requires |ids| == |payloads| && k < |ids| && j < |segs| && segs[j].id == ids[k]
    requires DistinctIds(segs) && (forall a, b | 0 <= a < b < |ids| :: ids[a] != ids[b])
    ensures Deliver(ids, payloads, segs)[k] == CopyInto(payloads[k], segs[j].data)
    decreases |segs|
  {
    var f := Find(ids, segs[0].id);
    var next := if f < |ids| then payloads[f := CopyInto(payloads[f], segs[0].data)] else payloads;
    if j == 0 {
      assert f == k;
      DeliverMiss(ids, next, segs[1..], k);
    } else {
      assert f < |ids| ==> ids[f] == segs[0].id != segs[j].id;
      DeliverHit(ids, next, segs[1..], j - 1, k);
    }
  }

  // ---- Greedy packing ----

  /** Header and payload bytes of the mapped items. */
  function MappedBytes(h: HeaderFormat, capacity: nat, items: seq<Item>): nat {
    if items == [] then 0 else
    var n := |items| - 1;
    MappedBytes(h, capacity, items[..n]) +
    (if OutcomeAt(h, capacity, items, n) == Mapped then HeaderLength(h) + |items[n].payload| else 0)
  }

  /** Header and payload bytes of the mapped items, the payload cut to what the header's length field can say. */
  function WrittenBytes(h: HeaderFormat, capacity: nat, items: seq<Item>): nat {
    if items == [] then 0 else
    var n := |items| - 1;
    WrittenBytes(h, capacity, items[..n]) +
    (if OutcomeAt(h, capacity, items, n) == Mapped then HeaderLength(h) + WrittenLength(h, |items[n].payload|) else 0)
  }

  /** A mapped item loses bytes to the cast of its length. */
  predicate CutAt(h: HeaderFormat, capacity: nat, items: seq<Item>, k: nat)
    requires k < |items|
  {
    OutcomeAt(h, capacity, items, k) == Mapped && WrittenLength(h, |items[k].payload|) < |items[k].payload|
  }

  predicate SomeCut(h: HeaderFormat, capacity: nat, items: seq<Item>) {
    exists k :: 0 <= k < |items| && CutAt(h, capacity, items, k)
  }

  /** With any header and any ids: the container holds what is written for the mapped items, and never overflows. */
  lemma {:induction false} UsedBytes(h: HeaderFormat, capacity: nat, items: seq<Item>)
    ensures |Used(h, capacity, items)| == WrittenBytes(h, capacity, items) <= capacity
  {
    if items != [] {
      UsedBytes(h, capacity, items[..|items| - 1]);
    }
  }

  /** These are all the bytes of the mapped items exactly when the cast of a length cuts none of them. */
  lemma {:induction false} CutExactly(h: HeaderFormat, capacity: nat, items: seq<Item>)
    ensures WrittenBytes(h, capacity, items) <= MappedBytes(h, capacity, items)
    ensures WrittenBytes(h, capacity, items) == MappedBytes(h, capacity, items) <==> !SomeCut(h, capacity, items)
  {
    hide OutcomeAt;
    if items != [] {
      var n := |items| - 1;
      CutExactly(h, capacity, items[..n]);
      LastCut(h, capacity, items);
    }
  }

  lemma {:induction false} LastCut(h: HeaderFormat, capacity: nat, items: seq<Item>)
    requires items != []
    ensures var n := |items| - 1;
            SomeCut(h, capacity, items) <==> SomeCut(h, capacity, items[..n]) || CutAt(h, capacity, items, n)
  {
    var n := |items| - 1;
    forall k | 0 <= k < n ensures CutAt(h, capacity, items[..n], k) == CutAt(h, capacity, items, k) {
      assert items[..n][..k] == items[..k];
    }
    hide CutAt;
  }

  /** A Short header cuts an I-PDU of 256 bytes to none, which is fewer than are mapped. */
  lemma {:induction false} CutHappens(id: nat)
    ensures var items := [Item(id, Zeros(256), true)];
            && SomeCut(Short, 300, items)
            && WrittenBytes(Short, 300, items) == 4 && MappedBytes(Short, 300, items) == 260
  {
    var items := [Item(id, Zeros(256), true)];
    assert items[..0] == [];
    assert CutAt(Short, 300, items, 0);
  }

  /** No cut with an id and length that the header can carry, nor in a Static container. */
  lemma {:induction false} CarriedUncut(h: HeaderFormat, capacity: nat, items: seq<Item>)
    requires AllCarried(h, items) || h == Static
    ensures |Used(h, capacity, items)| == MappedBytes(h, capacity, items)
  {
    UsedBytes(h, capacity, items);
    CutExactly(h, capacity, items);
    forall k | 0 <= k < |items| ensures WrittenLength(h, |items[k].payload|) == |items[k].payload| {
      assert h != Static ==> Carries(h, Segment(items[k].id, items[k].payload));
    }
  }

  /** The outcome for an item does not depend on the items after it; it waits only if it is pending and does not fit. */
  lemma {:induction false} GreedyOutcome(h: HeaderFormat, capacity: nat, before: seq<Item>, item: Item,
                                         after: seq<Item>)
    ensures OutcomeAt(h, capacity, before + [item] + after, |before|) ==
            if !item.pending then Idle
            else if WrittenBytes(h, capacity, before) + HeaderLength(h) + |item.payload| <= capacity then Mapped
            else Delayed
  {
    assert (before + [item] + after)[..|before|] == before;
    UsedBytes(h, capacity, before);
  }

  // ---- The bytes of a container ----

  lemma {:induction false} UsedPrefix(h: HeaderFormat, capacity: nat, items: seq<Item>, k: nat)
    requires k <= |items|
    ensures Used(h, capacity, items[..k]) <= Used(h, capacity, items)
  {
    hide Entry;
    if k == |items| {
      assert items[..k] == items;
    } else {
      var n := |items| - 1;
      assert items[..n][..k] == items[..k];
      UsedPrefix(h, capacity, items[..n], k);
    }
  }

  lemma {:induction false} EntryAt(h: HeaderFormat, capacity: nat, items: seq<Item>, k: nat)
    requires k < |items| && OutcomeAt(h, capacity, items, k) == Mapped
    ensures var p, off := Build(h, capacity, items), WrittenBytes(h, capacity, items[..k]);
            var entry := Entry(h, items[k].id, items[k].payload);
            off + |entry| <= capacity && p[off..off + |entry|] == entry
  {
    hide Entry, OutcomeOf;
    UsedPrefix(h, capacity, items, k + 1);
    UsedBytes(h, capacity, items[..k]);
    assert items[..k + 1][..k] == items[..k];
    var entry := Entry(h, items[k].id, items[k].payload);
    var a, b := Used(h, capacity, items[..k]), Used(h, capacity, items);
    assert Used(h, capacity, items[..k + 1]) == a + entry;
    assert b[|a|..|a| + |entry|] == entry;
  }

  /** What a mapped item puts behind the bytes before it, byte by byte. */
  lemma {:induction false} MappedIsWritten(h: HeaderFormat, capacity: nat, items: seq<Item>, k: nat)
    requires k < |items| && OutcomeAt(h, capacity, items, k) == Mapped
    ensures var p, off := Build(h, capacity, items), WrittenBytes(h, capacity, items[..k]);
            var id, data := items[k].id, items[k].payload;
            var header := if h == Short then 4 else if h == Full then 8 else 0;
            var len := if h == Short then |data| % 256 else if h == Full then |data| % 0x1_0000_0000 else |data|;
            && off + header + len <= capacity && p[off + header..off + header + len] == data[..len]
            && (h == Short ==> p[off..off + 4] == [id / 65536 % 256, id / 256 % 256, id % 256, len % 256])
            && (h == Full ==>
                  && p[off..off + 4] == [id / 16777216 % 256, id / 65536 % 256, id / 256 % 256, id % 256]
                  && p[off + 4..off + 8] == [len / 16777216 % 256, len / 65536 % 256, len / 256 % 256, len % 256])
  {
    EntryAt(h, capacity, items, k);
    var p, off := Build(h, capacity, items), WrittenBytes(h, capacity, items[..k]);
    hide *;
    EntryBytes(p, off, h, items[k].id, items[k].payload);
  }

  lemma {:induction false} EntryBytes(p: seq<byte>, off: nat, h: HeaderFormat, id: nat, data: seq<byte>)
    requires off + |Entry(h, id, data)| <= |p| && p[off..off + |Entry(h, id, data)|] == Entry(h, id, data)
    ensures var header := if h == Short then 4 else if h == Full then 8 else 0;
            var len := if h == Short then |data| % 256 else if h == Full then |data| % 0x1_0000_0000 else |data|;
            && |Entry(h, id, data)| == header + len
            && p[off + header..off + header + len] == data[..len]
            && (h == Short ==> p[off..off + 4] == [id / 65536 % 256, id / 256 % 256, id % 256, len % 256])
            && (h == Full ==>
                  && p[off..off + 4] == [id / 16777216 % 256, id / 65536 % 256, id / 256 % 256, id % 256]
                  && p[off + 4..off + 8] == [len / 16777216 % 256, len / 65536 % 256, len / 256 % 256, len % 256])
  {
    var len := WrittenLength(h, |data|);
    var header := Header(h, id, len);
    assert Entry(h, id, data) == header + data[..len];
    HeaderBytes(h, id, len);
    hide Header, Entry;
    Parts(p, off, header, data[..len]);
    if h == Full {
      Parts(p, off, header[..4], header[4..]);
    }
  }

  lemma {:induction false} Parts(p: seq<byte>, off: nat, x: seq<byte>, y: seq<byte>)
    requires off + |x| + |y| <= |p| && p[off..off + |x| + |y|] == x + y
    ensures p[off..off + |x|] == x && p[off + |x|..off + |x| + |y|] == y
  {
    var q := p[off..off + |x| + |y|];
    assert p[off..off + |x|] == q[..|x|] && p[off + |x|..off + |x| + |y|] == q[|x|..];
  }

  lemma {:induction false} HeaderBytes(h: HeaderFormat, id: nat, len: nat)
    ensures h == Short ==> Header(h, id, len) == [id / 65536 % 256, id / 256 % 256, id % 256, len % 256]
    ensures h == Full ==>
              && |Header(h, id, len)| == 8
              && Header(h, id, len)[..4] == [id / 16777216 % 256, id / 65536 % 256, id / 256 % 256, id % 256]
              && Header(h, id, len)[4..] == [len / 16777216 % 256, len / 65536 % 256, len / 256 % 256, len % 256]
  {
    BytesOf(id);
    BytesOf(len);
    Quarters(id);
    Quarters(len);
    hide ByteOf;
  }

  lemma {:induction false} Quarters(v: nat)
    ensures v / 256 / 256 == v / 65536 && v / 256 / 256 / 256 == v / 16777216
  {}

  // ---- The parsing loop, whatever the lengths ----

  /** One round at off: where the next one begins, or None where the loop ends. The position is a size_t. */
  function RoundAt(h: HeaderFormat, p: seq<byte>, off: nat): (r: Option<nat>)
    ensures r.Some? ==> off + HeaderLength(h) <= |p| && HeaderLength(h) > 0 && r.value <= |p|
  {
    if !(h == Short || h == Full) || off >= |p| || HeaderLength(h) > |p| - off then None
    else if IdField(h, p[off..]) == 0 then None else
    var next := (off + HeaderLength(h) + LengthField(h, p[off..])) % (SIZE_MAX + 1);
    if next > |p| then None else Some(next)
  }

  /** The len bytes at start; where len wraps around, all that are left. */
  function BytesAt(p: seq<byte>, start: nat, len: nat): seq<byte>
    requires start <= |p|
  {
    if start + len <= |p| then p[start..start + len] else p[start..]
  }

  function SegmentAt(h: HeaderFormat, p: seq<byte>, off: nat): Segment
    requires off + HeaderLength(h) <= |p|
  {
    Segment(IdField(h, p[off..]), BytesAt(p, off + HeaderLength(h), LengthField(h, p[off..])))
  }

  /** Where round n begins, if the loop gets there. */
  function Position(h: HeaderFormat, p: seq<byte>, n: nat): (r: Option<nat>)
    ensures r.Some? ==> r.value <= |p|
  {
    if n == 0 then Some(0) else
    var off := Position(h, p, n - 1);
    if off.None? then None else RoundAt(h, p, off.value)
  }

  /** What at most n rounds from off on find. */
  function Rounds(h: HeaderFormat, p: seq<byte>, off: nat, n: nat): seq<Segment>
    decreases n
  {
    if n == 0 || RoundAt(h, p, off).None? then [] else
    [SegmentAt(h, p, off)] + Rounds(h, p, RoundAt(h, p, off).value, n - 1)
  }

  /** What the loop finds: a parse that ends does so within |p| + 1 rounds. */
  function Parsed(h: HeaderFormat, p: seq<byte>): seq<Segment> {
    Rounds(h, p, 0, |p| + 1)
  }

  ghost predicate Ends(h: HeaderFormat, p: seq<byte>) {
    exists n: nat :: Position(h, p, n).None?
  }

  /** Two of the first |p| + 1 rounds begin at the same position. */
  predicate Recurs(h: HeaderFormat, p: seq<byte>) {
    exists i, j :: 0 <= i < j <= |p| && Position(h, p, i).Some? && Position(h, p, j) == Position(h, p, i)
  }

  lemma {:induction false} EndedStays(h: HeaderFormat, p: seq<byte>, m: nat, n: nat)
    requires m <= n && Position(h, p, m).None?
    ensures Position(h, p, n).None?
  {
    hide RoundAt;
    if m < n {
      EndedStays(h, p, m, n - 1);
    }
  }

  /** A position that is met twice is met again and again. */
  lemma {:induction false} Repeats(h: HeaderFormat, p: seq<byte>, i: nat, j: nat, n: nat)
    requires i < j && i <= n && Position(h, p, j) == Position(h, p, i)
    ensures Position(h, p, n + (j - i)) == Position(h, p, n)
  {
    hide RoundAt;
    if n > i {
      Repeats(h, p, i, j, n - 1);
      assert n - 1 + (j - i) == n + (j - i) - 1;
    }
  }

  lemma {:induction false} RecursForever(h: HeaderFormat, p: seq<byte>, i: nat, j: nat, n: nat)
    requires i < j && Position(h, p, i).Some? && Position(h, p, j) == Position(h, p, i)
    ensures Position(h, p, n).Some?
  {
    hide Position;
    if n <= j {
      if Position(h, p, n).None? {
        EndedStays(h, p, n, j);
      }
    } else {
      var d := j - i;
      Repeats(h, p, i, j, n - d);
      RecursForever(h, p, i, j, n - d);
    }
  }

  predicate DistinctNumbers(s: seq<nat>) {
    forall i, j | 0 <= i < j < |s| :: s[i] != s[j]
  }

  lemma {:induction false} Pigeonhole(s: seq<nat>, n: nat)
    requires DistinctNumbers(s) && forall i | 0 <= i < |s| :: s[i] < n
    ensures |s| <= n
  {
    if s != [] {
      assert s[0] < n;
      if n - 1 in s {
        var a :| 0 <= a < |s| && s[a] == n - 1;
        var t := s[..a] + s[a + 1..];
        assert forall i | 0 <= i < |t| :: t[i] == if i < a then s[i] else s[i + 1];
        Pigeonhole(t, n - 1);
      } else {
        Pigeonhole(s, n - 1);
      }
    }
  }

  /** The parse ends exactly when no position recurs; and if it ends, it does so within |p| + 1 rounds. */
  lemma {:induction false} EndsExactly(h: HeaderFormat, p: seq<byte>)
    ensures Ends(h, p) <==> !Recurs(h, p)
    ensures Ends(h, p) <==> Position(h, p, |p| + 1).None?
  {
    hide RoundAt;
    if Recurs(h, p) {
      var i, j :| 0 <= i < j <= |p| && Position(h, p, i).Some? && Position(h, p, j) == Position(h, p, i);
      forall n: nat ensures Position(h, p, n).Some? {
        RecursForever(h, p, i, j, n);
      }
    }
    if Position(h, p, |p| + 1).Some? {
      PositionsRecur(h, p);
    }
  }

  lemma {:induction false} PositionBefore(h: HeaderFormat, p: seq<byte>, n: nat)
    requires Position(h, p, |p| + 1).Some? && n <= |p|
    ensures Position(h, p, n).Some? && Position(h, p, n).value < |p|
  {
    hide RoundAt;
    if Position(h, p, n + 1).None? {
      EndedStays(h, p, n + 1, |p| + 1);
    }
    assert RoundAt(h, p, Position(h, p, n).value).Some?;
  }

  lemma {:induction false} PositionsRecur(h: HeaderFormat, p: seq<byte>)
    requires Position(h, p, |p| + 1).Some?
    ensures Recurs(h, p)
  {
    forall n: nat | n <= |p| ensures Position(h, p, n).Some? && Position(h, p, n).value < |p| {
      PositionBefore(h, p, n);
    }
    hide Position;
    var s := seq(|p| + 1, n requires 0 <= n <= |p| => Position(h, p, n).value);
    if DistinctNumbers(s) {
      Pigeonhole(s, |p|);
    } else {
      var i, j :| 0 <= i < j < |s| && s[i] == s[j];
      assert Position(h, p, i).Some? && Position(h, p, j) == Position(h, p, i);
    }
  }

  /** The size_t that a 32-bit length becomes. */
  function Widened(len: nat): nat
    requires len < 0x1_0000_0000
  {
    if len < 0x8000_0000 then len else 0xFFFF_FFFF_0000_0000 + len
  }

  /** One round, byte by byte, behind a Short header. */
  lemma {:induction false} ShortRound(p: seq<byte>, off: nat)
    ensures off + 4 > |p| ==> RoundAt(Short, p, off).None?
    ensures off + 4 <= |p| < 0x8000_0000_0000_0000 ==>
              var id := 65536 * (p[off] as nat) + 256 * (p[off + 1] as nat) + p[off + 2];
              var next := off + 4 + p[off + 3];
              if id == 0 || next > |p| then RoundAt(Short, p, off).None?
              else RoundAt(Short, p, off) == Some(next) && SegmentAt(Short, p, off) == Segment(id, p[off + 4..next])
  {
    if off + 4 <= |p| < 0x8000_0000_0000_0000 {
      var q := p[off..];
      assert q[..3] == [p[off], p[off + 1], p[off + 2]] && q[3] == p[off + 3];
      ThreeBytes(q[..3]);
      ModSmall(off + 4 + p[off + 3], SIZE_MAX + 1);
      hide BigEndian;
    }
  }

  lemma {:induction false} FullFields(p: seq<byte>, off: nat)
    requires off + 8 <= |p|
    ensures IdField(Full, p[off..]) == Join(Join(Join(p[off], p[off + 1]), p[off + 2]), p[off + 3])
    ensures var len := Join(Join(Join(p[off + 4], p[off + 5]), p[off + 6]), p[off + 7]);
            len < 0x1_0000_0000 && LengthField(Full, p[off..]) == Widened(len)
  {
    var q := p[off..];
    assert q[..4] == [p[off], p[off + 1], p[off + 2], p[off + 3]];
    assert q[4..8] == [p[off + 4], p[off + 5], p[off + 6], p[off + 7]];
    FourBytes(q[..4]);
    FourBytes(q[4..8]);
    hide BigEndian;
  }

  /** And behind a Full header, where the position may wrap around. */
  lemma {:induction false} FullRound(p: seq<byte>, off: nat)
    ensures off + 8 > |p| ==> RoundAt(Full, p, off).None?
    ensures off + 8 <= |p| ==>
              var id := Join(Join(Join(p[off], p[off + 1]), p[off + 2]), p[off + 3]);
              var len := Join(Join(Join(p[off + 4], p[off + 5]), p[off + 6]), p[off + 7]);
              len < 0x1_0000_0000 &&
              var end := off + 8 + Widened(len);
              var next := end % 0x1_0000_0000_0000_0000;
              if id == 0 || next > |p| then RoundAt(Full, p, off).None?
              else
                && RoundAt(Full, p, off) == Some(next)
                && SegmentAt(Full, p, off) == Segment(id, if end <= |p| then p[off + 8..end] else p[off + 8..])
  {
    if off + 8 <= |p| {
      FullFields(p, off);
      hide IdField, LengthField, Join, Widened;
    }
  }

  /** Behind a Full header a round moves forward exactly when the length is not a small negative int. */
  lemma {:induction false} RoundAdvances(p: seq<byte>, off: nat)
    requires |p| < 0x8000_0000_0000_0000 && RoundAt(Full, p, off).Some?
    ensures var len := BigEndian(p[off + 4..off + 8]);
            RoundAt(Full, p, off).value > off <==> len < 0x8000_0000 || len > 0xFFFF_FFF8
  {
    var len := BigEndian(p[off + 4..off + 8]);
    assert p[off..][4..8] == p[off + 4..off + 8];
    FourBytes(p[off + 4..off + 8]);
    hide BigEndian;
    var x := 0x1_0000_0000 - len;
    if len >= 0x8000_0000 {
      if off + 8 >= x {
        ModUnique(off + 8 + SizeOfInt(len), SIZE_MAX + 1, 1, off + 8 - x);
      } else {
        ModSmall(off + 8 + SizeOfInt(len), SIZE_MAX + 1);
      }
    } else {
      ModSmall(off + 8 + len, SIZE_MAX + 1);
    }
  }

  /** A length of -8 takes the parser back to the header it has just read, for ever. */
  lemma {:induction false} StuckForever(n: nat)
    ensures var p := [0, 0, 0, 1, 0xFF, 0xFF, 0xFF, 0xF8];
            Position(Full, p, n) == Some(0) && !Ends(Full, p)
  {
    var p: seq<byte> := [0, 0, 0, 1, 0xFF, 0xFF, 0xFF, 0xF8];
    assert p[0..] == p && p[..4] == [0, 0, 0, 1] && p[4..8] == [0xFF, 0xFF, 0xFF, 0xF8];
    FourBytes([0, 0, 0, 1]);
    FourBytes([0xFF, 0xFF, 0xFF, 0xF8]);
    hide BigEndian;
    assert RoundAt(Full, p, 0) == Some(0);
    hide RoundAt;
    assert Position(Full, p, 1) == Some(0);
    assert Recurs(Full, p);
    EndsExactly(Full, p);
    StaysAt(Full, p, n);
  }

  lemma {:induction false} StaysAt(h: HeaderFormat, p: seq<byte>, n: nat)
    requires RoundAt(h, p, 0) == Some(0)
    ensures Position(h, p, n) == Some(0)
  {
    if n > 0 {
      StaysAt(h, p, n - 1);
    }
  }

  // ---- Payloads without wrapping lengths ----

  lemma {:induction false} DefinedRound(h: HeaderFormat, p: seq<byte>, off: nat)
    requires off <= |p| && LengthsDefined(h, off, p[off..])
    ensures RoundAt(h, p, off).Some? <==> HasEntry(h, p[off..])
    ensures RoundAt(h, p, off).Some? ==>
              var next := off + HeaderLength(h) + LengthField(h, p[off..]);
              && RoundAt(h, p, off) == Some(next) && next > off && LengthsDefined(h, next, p[next..])
              && SegmentAt(h, p, off).data == p[off..][HeaderLength(h)..HeaderLength(h) + LengthField(h, p[off..])]
  {
    hide IdField, LengthField;
    if (h == Short || h == Full) && HeaderLength(h) <= |p| - off && IdField(h, p[off..]) != 0 {
      var next := off + HeaderLength(h) + LengthField(h, p[off..]);
      ModSmall(next, SIZE_MAX + 1);
      if next <= |p| {
        assert p[off..][next - off..] == p[next..];
      }
    }
  }

  /** Then the rounds are those of Segments. */
  lemma {:induction false} DefinedRounds(h: HeaderFormat, p: seq<byte>, off: nat, n: nat)
    requires off <= |p| && LengthsDefined(h, off, p[off..]) && n > |p| - off
    ensures Rounds(h, p, off, n) == Segments(h, p[off..])
    decreases n
  {
    hide RoundAt, SegmentAt, LengthsDefined, HasEntry, IdField, LengthField;
    DefinedRound(h, p, off);
    if RoundAt(h, p, off).Some? {
      var next := RoundAt(h, p, off).value;
      DefinedRounds(h, p, next, n - 1);
      assert p[off..][next - off..] == p[next..];
      SegmentIs(h, p, off);
    }
  }

  lemma {:induction false} SegmentIs(h: HeaderFormat, p: seq<byte>, off: nat)
    requires off + HeaderLength(h) <= |p|
    ensures SegmentAt(h, p, off) == Segment(IdField(h, p[off..]), SegmentAt(h, p, off).data)
  {}

  lemma {:induction false} DefinedPosition(h: HeaderFormat, p: seq<byte>, n: nat)
    requires LengthsDefined(h, 0, p)
    ensures Position(h, p, n).Some? ==> var off := Position(h, p, n).value; off >= n && LengthsDefined(h, off, p[off..])
  {
    hide RoundAt, LengthsDefined;
    if n == 0 {
      assert p[0..] == p;
    } else {
      DefinedPosition(h, p, n - 1);
      if Position(h, p, n).Some? {
        DefinedRound(h, p, Position(h, p, n - 1).value);
      }
    }
  }

  /** Without a length that wraps around the parse ends, and finds the segments. */
  lemma {:induction false} DefinedEnds(h: HeaderFormat, p: seq<byte>)
    requires LengthsDefined(h, 0, p)
    ensures !Recurs(h, p) && Parsed(h, p) == Segments(h, p)
  {
    hide Rounds, Segments, Position;
    DefinedPosition(h, p, |p| + 1);
    EndsExactly(h, p);
    assert p[0..] == p;
    DefinedRounds(h, p, 0, |p| + 1);
  }

  /** Map-from inverts map-to: the loop finds exactly the mapped items, and stops at the zero fill. */
  lemma {:induction false} ParseBuilt(h: HeaderFormat, capacity: nat, items: seq<Item>)
    requires AllCarried(h, items)
    ensures Segments(h, Build(h, capacity, items)) == MappedSegments(h, capacity, items)
    ensures capacity <= SIZE_MAX ==>
              var p := Build(h, capacity, items);
              !Recurs(h, p) && Parsed(h, p) == MappedSegments(h, capacity, items) && LengthsDefined(h, 0, p)
  {
    UsedIsEntries(h, capacity, items);
    MappedCarried(h, capacity, items);
    hide Used, Entries, MappedSegments, Segments, LengthsDefined, Parsed, Recurs, AllCarried, Carries;
    var segs, n := MappedSegments(h, capacity, items), capacity - |Used(h, capacity, items)|;
    ParseEntries(h, segs, n);
    if capacity <= SIZE_MAX {
      EntriesDefined(h, segs, 0, n);
      DefinedEnds(h, Build(h, capacity, items));
    }
  }

  /** Every copy to a listed I-PDU of one of these sizes reads inside the payload. */
  predicate CopiesInside(h: HeaderFormat, p: seq<byte>, ids: seq<nat>, sizes: seq<nat>)
    requires |ids| == |sizes|
  {
    forall n | 0 <= n <= |p| && Position(h, p, n).Some? :: CopyInside(h, p, ids, sizes, Position(h, p, n).value)
  }

  predicate CopyInside(h: HeaderFormat, p: seq<byte>, ids: seq<nat>, sizes: seq<nat>, off: nat)
    requires |ids| == |sizes|
  {
    RoundAt(h, p, off).Some? ==>
      var start, len, k := off + HeaderLength(h), LengthField(h, p[off..]), Find(ids, IdField(h, p[off..]));
      k < |ids| ==> start + (if sizes[k] > len then len else sizes[k]) <= |p|
  }

  lemma {:induction false} DefinedCopies(h: HeaderFormat, p: seq<byte>, ids: seq<nat>, sizes: seq<nat>)
    requires |ids| == |sizes| && LengthsDefined(h, 0, p)
    ensures CopiesInside(h, p, ids, sizes)
  {
    hide Position, LengthsDefined, RoundAt, HasEntry;
    forall n | 0 <= n <= |p| && Position(h, p, n).Some? ensures CopyInside(h, p, ids, sizes, Position(h, p, n).value) {
      DefinedPosition(h, p, n);
      DefinedRound(h, p, Position(h, p, n).value);
    }
  }
}
