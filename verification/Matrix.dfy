/** Flattening the PDU tree into rows, and the rows into one range per direction. */
module Matrix {
  import opened Container
  import opened Fields
  import opened Scaling

  datatype Direction = NoDirection | Rx | Tx
  datatype Trigger = NoTrigger | Change | Periodic
  datatype Signal = Signal(field: Field, scale: Scale)

  datatype PduItem = PduItem(
    id: nat, length: nat, dir: Direction,
    header: HeaderFormat, containerId: nat, priority: nat,
    phase: real, interval: real, trigger: Trigger,
    signals: seq<Signal>)

  datatype Row = Row(pdu: nat, sig: nat, signal: Signal)
  datatype Range = Range(dir: Direction, offset: nat, length: nat, pdus: seq<nat>)

  function Rank(d: Direction): nat {
    match d
    case NoDirection => 0
    case Rx => 1
    case Tx => 2
  }

  /** What vector_sort leaves: the sort itself is the library's. */
  ghost predicate SortedByDirection(order: seq<PduItem>) {
    forall i, j | 0 <= i < j < |order| :: Rank(order[i].dir) <= Rank(order[j].dir)
  }

  /** The row of the first signal of PDU i. */
  function Offset(order: seq<PduItem>, i: nat): nat
    requires i <= |order|
  {
    if i == 0 then 0 else Offset(order, i - 1) + |order[i - 1].signals|
  }

  lemma {:induction false} OffsetGrows(order: seq<PduItem>, i: nat, j: nat)
    requires i <= j <= |order|
    ensures Offset(order, i) <= Offset(order, j)
    ensures i < j ==> Offset(order, i) + |order[i].signals| <= Offset(order, j)
  {
    if i < j {
      OffsetGrows(order, i, j - 1);
    }
  }

  /** The rows hold, PDU by PDU, exactly the signals of the first n PDUs. */
  ghost predicate RowsOf(order: seq<PduItem>, n: nat, rows: seq<Row>)
    requires n <= |order|
  {
    && |rows| == Offset(order, n)
    && (forall x | 0 <= x < |rows| ::
          && rows[x].pdu < n && rows[x].sig < |order[rows[x].pdu].signals|
          && x == Offset(order, rows[x].pdu) + rows[x].sig
          && rows[x].signal == order[rows[x].pdu].signals[rows[x].sig])
  }

  /** One non-empty range per direction that has signals, holding exactly that direction's rows and PDUs. */
  ghost predicate RangeOf(order: seq<PduItem>, rows: seq<Row>, r: Range)
    requires RowsOf(order, |order|, rows)
  {
    && r.dir != NoDirection && r.length > 0
    && (forall x :: r.offset <= x < r.offset + r.length <==> 0 <= x < |rows| && order[rows[x].pdu].dir == r.dir)
    && (forall i: nat :: i in r.pdus <==> i < |order| && order[i].dir == r.dir)
  }

  ghost predicate RangesOf(order: seq<PduItem>, rows: seq<Row>, ranges: seq<Range>)
    requires RowsOf(order, |order|, rows)
  {
    && (forall k | 0 <= k < |ranges| :: RangeOf(order, rows, ranges[k]))
    && (forall k, l | 0 <= k < l < |ranges| :: ranges[k].dir != ranges[l].dir)
    && (forall x | 0 <= x < |rows| && order[rows[x].pdu].dir != NoDirection ::
          exists k :: 0 <= k < |ranges| && ranges[k].dir == order[rows[x].pdu].dir)
  }

  /** Pushes the signals of every PDU, in the sorted order. */
  method PushRows(order: seq<PduItem>) returns (offsets: seq<nat>, rows: seq<Row>)
    ensures |offsets| == |order| && (forall i | 0 <= i < |order| :: offsets[i] == Offset(order, i))
    ensures RowsOf(order, |order|, rows)
  {
    offsets, rows := [], [];
    var signalOffset := 0;
    for p := 0 to |order|
      invariant |offsets| == p && (forall i | 0 <= i < p :: offsets[i] == Offset(order, i))
      invariant signalOffset == Offset(order, p) && RowsOf(order, p, rows)
    {
      offsets := offsets + [signalOffset];
      for s := 0 to |order[p].signals|
        invariant |rows| == signalOffset + s
        invariant forall x | 0 <= x < |rows| ::
                    && rows[x].pdu <= p && rows[x].sig < |order[rows[x].pdu].signals|
                    && (rows[x].pdu == p ==> rows[x].sig < s)
                    && x == Offset(order, rows[x].pdu) + rows[x].sig
                    && rows[x].signal == order[rows[x].pdu].signals[rows[x].sig]
      {
        rows := rows + [Row(p, s, order[p].signals[s])];
      }
      signalOffset := signalOffset + |order[p].signals|;
    }
  }

  /** Rows of the PDUs [g, i) of one direction are the rows [Offset(g), Offset(i)). */
  lemma {:induction false} RowsBetween(order: seq<PduItem>, rows: seq<Row>, g: nat, i: nat, x: nat)
    requires RowsOf(order, |order|, rows) && g <= i <= |order| && x < |rows|
    ensures Offset(order, g) <= x < Offset(order, i) <==> g <= rows[x].pdu < i
  {
    var p := rows[x].pdu;
    if p < g {
      OffsetGrows(order, p, g);
    } else {
      OffsetGrows(order, g, p);
    }
    if p < i {
      OffsetGrows(order, p, i);
    } else {
      OffsetGrows(order, i, p);
    }
  }

  /** Row Offset(p) + k is signal k of PDU p: the PDUs' row ranges partition the rows. */
  lemma {:induction false} RowAt(order: seq<PduItem>, rows: seq<Row>, p: nat, k: nat)
    requires RowsOf(order, |order|, rows) && p < |order| && k < |order[p].signals|
    ensures Offset(order, p) + k < |rows| && rows[Offset(order, p) + k] == Row(p, k, order[p].signals[k])
  {
    OffsetGrows(order, p + 1, |order|);
    RowsBetween(order, rows, p, p + 1, Offset(order, p) + k);
  }

  /** The PDUs of direction d are exactly those at positions [g, i). */
  ghost predicate Group(order: seq<PduItem>, d: Direction, g: nat, i: nat) {
    g <= i <= |order| && forall k | 0 <= k < |order| :: order[k].dir == d <==> g <= k < i
  }

  lemma {:induction false} GroupRange(order: seq<PduItem>, rows: seq<Row>, d: Direction, g: nat, i: nat, pdus: seq<nat>)
    requires RowsOf(order, |order|, rows) && Group(order, d, g, i) && d != NoDirection
    requires Offset(order, g) < Offset(order, i)
    requires forall k: nat :: k in pdus <==> g <= k < i
    ensures RangeOf(order, rows, Range(d, Offset(order, g), Offset(order, i) - Offset(order, g), pdus))
  {
    OffsetGrows(order, i, |order|);
    forall x | 0 <= x < |rows|
      ensures Offset(order, g) <= x < Offset(order, i) <==> order[rows[x].pdu].dir == d
    {
      RowsBetween(order, rows, g, i, x);
    }
  }

  /** PDUs of every direction up to d have their range, if they have rows. */
  ghost predicate Emitted(order: seq<PduItem>, rows: seq<Row>, ranges: seq<Range>, rank: nat)
    requires RowsOf(order, |order|, rows)
  {
    && (forall k | 0 <= k < |ranges| :: RangeOf(order, rows, ranges[k]) && Rank(ranges[k].dir) < rank)
    && (forall k, l | 0 <= k < l < |ranges| :: ranges[k].dir != ranges[l].dir)
    && (forall x | 0 <= x < |rows| && 0 < Rank(order[rows[x].pdu].dir) < rank ::
          exists k :: 0 <= k < |ranges| && ranges[k].dir == order[rows[x].pdu].dir)
  }

  /** The ranges after closing the group [g, i) of direction d, as both emit branches do. */
  function Closed(order: seq<PduItem>, ranges: seq<Range>, d: Direction, g: nat, i: nat, pdus: seq<nat>): seq<Range>
    requires g <= i <= |order|
  {
    if Offset(order, i) > Offset(order, g) && d != NoDirection
    then ranges + [Range(d, Offset(order, g), Offset(order, i) - Offset(order, g), pdus)]
    else ranges
  }

  lemma {:induction false} EmitGroup(order: seq<PduItem>, rows: seq<Row>, ranges: seq<Range>,
                                     d: Direction, g: nat, i: nat, pdus: seq<nat>, next: nat)
    requires RowsOf(order, |order|, rows) && Group(order, d, g, i)
    requires Emitted(order, rows, ranges, Rank(d)) && Rank(d) < next
    requires forall k: nat :: k in pdus <==> g <= k < i
    requires forall k | 0 <= k < |order| :: !(Rank(d) < Rank(order[k].dir) < next)
    ensures Emitted(order, rows, Closed(order, ranges, d, g, i, pdus), next)
  {
    var closed := Closed(order, ranges, d, g, i, pdus);
    if closed != ranges {
      GroupRange(order, rows, d, g, i, pdus);
    }
    forall x | 0 <= x < |rows| && 0 < Rank(order[rows[x].pdu].dir) < next
      ensures exists k :: 0 <= k < |closed| && closed[k].dir == order[rows[x].pdu].dir
    {
      var dir := order[rows[x].pdu].dir;
      if dir == d {
        RowsBetween(order, rows, g, i, x);
        assert closed[|ranges|].dir == d;
      } else {
        var k :| 0 <= k < |ranges| && ranges[k].dir == dir;
        assert closed[k] == ranges[k];
      }
    }
  }

  lemma {:induction false} EmittedAll(order: seq<PduItem>, rows: seq<Row>, ranges: seq<Range>)
    requires RowsOf(order, |order|, rows) && Emitted(order, rows, ranges, 3)
    ensures RangesOf(order, rows, ranges)
  {}

  lemma {:induction false} GroupEnds(order: seq<PduItem>, d: Direction, g: nat, i: nat)
    requires SortedByDirection(order) && g <= i <= |order|
    requires forall k | 0 <= k < g :: Rank(order[k].dir) < Rank(d)
    requires forall k | g <= k < i :: order[k].dir == d
    requires i < |order| ==> Rank(d) < Rank(order[i].dir)
    ensures Group(order, d, g, i)
    ensures i < |order| ==> forall k | 0 <= k < |order| :: !(Rank(d) < Rank(order[k].dir) < Rank(order[i].dir))
  {
    forall k | i <= k < |order| ensures Rank(order[k].dir) >= Rank(order[i].dir) {}
  }

  /** The direction changes at i: the group [g, i) gets its range. */
  lemma {:induction false} CloseGroup(order: seq<PduItem>, rows: seq<Row>, ranges: seq<Range>, d: Direction, g: nat,
                                      i: nat, pdus: seq<nat>)
    requires RowsOf(order, |order|, rows) && SortedByDirection(order) && g <= i < |order|
    requires Emitted(order, rows, ranges, Rank(d)) && forall k: nat :: k in pdus <==> g <= k < i
    requires forall k | 0 <= k < g :: Rank(order[k].dir) < Rank(d)
    requires (forall k | g <= k < i :: order[k].dir == d) && Rank(d) < Rank(order[i].dir)
    ensures Offset(order, g) <= Offset(order, i)
    ensures Emitted(order, rows, Closed(order, ranges, d, g, i, pdus), Rank(order[i].dir))
  {
    hide Emitted, RowsOf;
    GroupEnds(order, d, g, i);
    EmitGroup(order, rows, ranges, d, g, i, pdus, Rank(order[i].dir));
    OffsetGrows(order, g, i);
  }

  /** Emits a range whenever the direction changes, and one for the last group. */
  method EmitRanges(order: seq<PduItem>, rows: seq<Row>) returns (ranges: seq<Range>)
    requires RowsOf(order, |order|, rows) && SortedByDirection(order)
    ensures RangesOf(order, rows, ranges)
  {
    hide Emitted, RangesOf, RowsOf, Group;
    ranges := [];
    var sigCount, sigOffset, d := 0, 0, NoDirection;
    var pduList: seq<nat> := [];
    ghost var g := 0;
    NothingEmitted(order, rows);
    for i := 0 to |order|
      invariant g <= i && sigOffset == Offset(order, g) && sigCount == Offset(order, i) - Offset(order, g)
      invariant forall k: nat :: k in pduList <==> g <= k < i
      invariant forall k | 0 <= k < g :: Rank(order[k].dir) < Rank(d)
      invariant forall k | g <= k < i :: order[k].dir == d
      invariant i < |order| ==> Rank(d) <= Rank(order[i].dir)
      invariant Emitted(order, rows, ranges, Rank(d))
    {
      var dir := order[i].dir;
      if dir == d {
        sigCount := sigCount + |order[i].signals|;
        pduList := pduList + [i];
      } else {
        CloseGroup(order, rows, ranges, d, g, i, pduList);
        if sigCount > 0 {
          if d != NoDirection {
            ranges := ranges + [Range(d, sigOffset, sigCount, pduList)];
          }
          sigOffset := sigOffset + sigCount;
        }
        sigCount := |order[i].signals|;
        d := dir;
        pduList := [i];
        g := i;
      }
    }
    OffsetGrows(order, g, |order|);
    GroupEnds(order, d, g, |order|);
    EmitGroup(order, rows, ranges, d, g, |order|, pduList, 3);
    if sigCount > 0 && d != NoDirection {
      ranges := ranges + [Range(d, sigOffset, sigCount, pduList)];
    }
    EmittedAll(order, rows, ranges);
  }

  lemma {:induction false} NothingEmitted(order: seq<PduItem>, rows: seq<Row>)
    requires RowsOf(order, |order|, rows)
    ensures Emitted(order, rows, [], Rank(NoDirection))
  {}

  // ---- The I-PDUs of a container ----

  /** The item belongs in the container: it has its direction and names it. */
  predicate Names(item: PduItem, container: PduItem) {
    item.dir == container.dir && item.containerId == container.id
  }

  /** The PDUs that container c names are listed once each, by priority. */
  ghost predicate Lists(order: seq<PduItem>, c: nat, list: seq<nat>)
    requires c < |order|
  {
    && (forall j: nat :: j in list <==> j < |order| && Names(order[j], order[c]))
    && ByPriority(order, list)
  }

  ghost predicate ByPriority(order: seq<PduItem>, list: seq<nat>) {
    && (forall a | 0 <= a < |list| :: list[a] < |order|)
    && (forall a, b | 0 <= a < b < |list| :: list[a] != list[b] && order[list[a]].priority <= order[list[b]].priority)
  }

  /** Collects the PDUs that name container c, and sorts them. */
  method ListContained(order: seq<PduItem>, c: nat) returns (list: seq<nat>)
    requires c < |order|
    ensures Lists(order, c, list)
  {
    list := [];
    for j := 0 to |order|
      invariant forall i: nat :: i in list <==> i < j && Names(order[i], order[c])
      invariant forall a, b | 0 <= a < b < |list| :: list[a] != list[b]
    {
      if order[j].dir == order[c].dir && order[j].containerId == order[c].id {
        list := list + [j];
      }
    }
    assert forall a | 0 <= a < |list| :: list[a] in list;
    list := SortByPriority(order, list);
  }

  /** Stands for vector_sort: any order of equal priorities would do. */
  method SortByPriority(order: seq<PduItem>, list: seq<nat>) returns (sorted: seq<nat>)
    requires forall a | 0 <= a < |list| :: list[a] < |order|
    requires forall a, b | 0 <= a < b < |list| :: list[a] != list[b]
    ensures ByPriority(order, sorted) && forall j: nat :: j in sorted <==> j in list
  {
    sorted := [];
    for i := 0 to |list|
      invariant ByPriority(order, sorted) && forall j: nat :: j in sorted <==> j in list[..i]
    {
      assert list[i] !in list[..i];
      InsertedSorted(order, sorted, list[i]);
      sorted := Inserted(order, sorted, list[i]);
      assert list[..i + 1] == list[..i] + [list[i]];
    }
    assert list[..|list|] == list;
  }

  function Inserted(order: seq<PduItem>, sorted: seq<nat>, j: nat): seq<nat>
    requires j < |order| && forall a | 0 <= a < |sorted| :: sorted[a] < |order|
  {
    if sorted == [] then [j] else
    var n := |sorted| - 1;
    if order[sorted[n]].priority <= order[j].priority then sorted + [j]
    else Inserted(order, sorted[..n], j) + [sorted[n]]
  }

  lemma {:induction false} InsertedSorted(order: seq<PduItem>, sorted: seq<nat>, j: nat)
    requires ByPriority(order, sorted) && j < |order| && j !in sorted
    ensures ByPriority(order, Inserted(order, sorted, j))
    ensures forall i: nat :: i in Inserted(order, sorted, j) <==> i in sorted || i == j
  {
    if sorted != [] {
      var n := |sorted| - 1;
      LastByPriority(order, sorted);
      hide ByPriority;
      if order[sorted[n]].priority > order[j].priority {
        var rest := Inserted(order, sorted[..n], j);
        InsertedSorted(order, sorted[..n], j);
        forall i | i in rest ensures i < |order| && i != sorted[n] && order[i].priority <= order[sorted[n]].priority {}
        AppendByPriority(order, rest, sorted[n]);
      } else {
        AppendByPriority(order, sorted, j);
      }
    }
  }

  lemma {:induction false} LastByPriority(order: seq<PduItem>, sorted: seq<nat>)
    requires ByPriority(order, sorted) && sorted != []
    ensures ByPriority(order, sorted[..|sorted| - 1]) && sorted == sorted[..|sorted| - 1] + [sorted[|sorted| - 1]]
    ensures forall i | i in sorted ::
              i < |order| && order[i].priority <= order[sorted[|sorted| - 1]].priority
    ensures sorted[|sorted| - 1] !in sorted[..|sorted| - 1]
  {}

  lemma {:induction false} AppendByPriority(order: seq<PduItem>, sorted: seq<nat>, j: nat)
    requires ByPriority(order, sorted) && j < |order| && j !in sorted
    requires forall i | i in sorted :: i < |order| && order[i].priority <= order[j].priority
    ensures ByPriority(order, sorted + [j])
  {
    forall a | 0 <= a < |sorted| ensures sorted[a] != j && order[sorted[a]].priority <= order[j].priority {
      assert sorted[a] in sorted;
    }
  }

  // ---- Schedule normalisation ----

  /** (int32_t)x, within 32 bits: truncation towards zero. */
  function Truncate(x: real): int {
    if x >= 0.0 then x.Floor else -((-x).Floor)
  }

  function IntervalTicks(p: PduItem, step: real): nat
    requires step > 0.0
  {
    if p.interval > 0.0 then Ratio(p.interval, step) else 0
  }

  function Ratio(x: real, step: real): nat
    requires x > 0.0 && step > 0.0
  {
    assert x / step > 0.0;
    (x / step).Floor
  }

  function PhaseTicks(p: PduItem, step: real): int
    requires step > 0.0
  {
    var n := IntervalTicks(p, step);
    if p.phase != 0.0 && n > 0 then
      var phase := Truncate(p.phase / step);
      n + (if phase > 0 then phase % n else -((-phase) % n))
    else 0
  }

  /** Interval and phase in ticks, written out; conversions to integers cut towards zero. */
  lemma {:induction false} TicksAre(p: PduItem, step: real)
    requires step > 0.0
    ensures IntervalTicks(p, step) == if p.interval > 0.0 then (p.interval / step).Floor else 0
    ensures var n := IntervalTicks(p, step);
            PhaseTicks(p, step) ==
            if n == 0 || p.phase == 0.0 then 0
            else if p.phase > 0.0 then n + (p.phase / step).Floor % n
            else n - (-p.phase / step).Floor % n
  {
    if p.phase != 0.0 {
      TruncateOf(p.phase, step);
    }
    hide Truncate, IntervalTicks;
  }

  lemma {:induction false} TruncateOf(phase: real, step: real)
    requires step > 0.0 && phase != 0.0
    ensures phase > 0.0 ==> Truncate(phase / step) == (phase / step).Floor >= 0
    ensures phase < 0.0 ==> Truncate(phase / step) == -((-phase / step).Floor) && (-phase / step).Floor >= 0
  {
    var x := phase / step;
    assert x * step == phase && -phase / step == -x;
    if phase > 0.0 {
      assert x > 0.0;
    } else {
      assert x < 0.0;
    }
  }

  /** The phase is moved by whole intervals into [n, 2n) if it is positive, and into (0, n] if it is negative. */
  lemma {:induction false} PhaseNormalised(p: PduItem, step: real)
    requires step > 0.0
    ensures var n := IntervalTicks(p, step);
            && (n == 0 || p.phase == 0.0 ==> PhaseTicks(p, step) == 0)
            && (n > 0 && p.phase != 0.0 ==>
                  && 0 < PhaseTicks(p, step) < 2 * n
                  && (if p.phase > 0.0 then PhaseTicks(p, step) >= n else PhaseTicks(p, step) <= n)
                  && exists k :: PhaseTicks(p, step) == Truncate(p.phase / step) + k * n)
  {
    var n := IntervalTicks(p, step);
    if n > 0 && p.phase != 0.0 {
      var t := Truncate(p.phase / step);
      var a := if t > 0 then t else -t;
      assert a == a / n * n + a % n;
      var q := a / n;
      if t > 0 {
        assert PhaseTicks(p, step) == t + (1 - q) * n by { assert (1 - q) * n == n - q * n; }
      } else {
        assert PhaseTicks(p, step) == t + (1 + q) * n by { assert (1 + q) * n == n + q * n; }
      }
    }
  }
}
