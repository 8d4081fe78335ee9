/** FlexRay: the epoch is moved at cycle changes, and what that does to the schedule of a PDU. */
module Flexray {
  import opened Binary
  import opened Checksum
  import opened Network
  import opened PduRuns
  import opened Scaling

  /** The epoch after a resync at tick `at`. */
  function Epoch(at: nat, cycle: nat): nat
    requires cycle > 0
  {
    at % cycle
  }

  lemma {:induction false} ModShift(a: int, n: nat, k: int)
    requires n > 0
    ensures (a + k * n) % n == a % n
    decreases if k < 0 then -k else k
  {
    if k > 0 {
      ModShift(a + n, n, k - 1);
      assert a + n + (k - 1) * n == a + k * n;
      ModPlus(a, n);
    } else if k < 0 {
      ModShift(a - n, n, k + 1);
      assert a - n + (k + 1) * n == a + k * n;
      ModPlus(a - n, n);
    }
  }

  lemma {:induction false} ModPlus(a: int, n: nat)
    requires n > 0
    ensures (a + n) % n == a % n
  {
    var q, r := a / n, a % n;
    assert n * (q + 1) == n * q + n;
    ModUnique(a + n, n, q + 1, r);
  }

  /** cycle is a whole number of intervals. */
  predicate Divides(n: nat, cycle: nat)
    requires n > 0
  {
    cycle % n == 0
  }

  lemma {:induction false} WholeCycles(at: nat, cycle: nat, n: nat)
    requires n > 0 && cycle > 0 && Divides(n, cycle)
    ensures exists k: int :: at - Epoch(at, cycle) == k * n
  {
    var c, d := at / cycle, cycle / n;
    assert at - at % cycle == c * cycle;
    assert cycle == d * n;
    assert c * cycle == c * d * n;
  }

  /** From the base on, the PDU fires at the ticks congruent to at + phase. */
  lemma {:induction false} FiresFromResync(p: Pdu, at: nat, cycle: nat, t: nat)
    requires p.interval > 0 && cycle > 0 && Divides(p.interval, cycle)
    requires t >= Epoch(at, cycle) + p.phase
    ensures Fires(p, Epoch(at, cycle), t) <==> (t - at - p.phase) % p.interval == 0
  {
    hide Epoch, Divides;
    WholeCycles(at, cycle, p.interval);
    var k: int :| at - Epoch(at, cycle) == k * p.interval;
    ModShift(t - at - p.phase, p.interval, k);
  }

  /** Resyncs whole intervals apart leave the same schedule once both bases are reached. */
  lemma {:induction false} ResyncStable(p: Pdu, at: nat, later: nat, cycle: nat, k: nat, t: nat)
    requires p.interval > 0 && cycle > 0 && Divides(p.interval, cycle) && later == at + k * p.interval
    requires t >= Epoch(at, cycle) + p.phase && t >= Epoch(later, cycle) + p.phase
    ensures Fires(p, Epoch(at, cycle), t) <==> Fires(p, Epoch(later, cycle), t)
  {
    hide *;
    FiresFromResync(p, at, cycle, t);
    FiresFromResync(p, later, cycle, t);
    var x := t - later - p.phase;
    assert x + k * p.interval == t - at - p.phase;
    ModShift(x, p.interval, k);
  }

  /**
   * The condition is exact: if the cycle is not a whole number of intervals, a resync at the end of the first
   * cycle fires the PDU at a tick that is not congruent.
   */
  lemma {:induction false} ResyncExact(p: Pdu, cycle: nat)
    requires p.interval > 0 && cycle > 0
    ensures Divides(p.interval, cycle) <==>
            forall at: nat, t: nat | t >= Epoch(at, cycle) + p.phase ::
              Fires(p, Epoch(at, cycle), t) <==> (t - at - p.phase) % p.interval == 0
  {
    if Divides(p.interval, cycle) {
      forall at: nat, t: nat | t >= Epoch(at, cycle) + p.phase
        ensures Fires(p, Epoch(at, cycle), t) <==> (t - at - p.phase) % p.interval == 0
      {
        FiresFromResync(p, at, cycle, t);
      }
    } else if forall at: nat, t: nat | t >= Epoch(at, cycle) + p.phase ::
                Fires(p, Epoch(at, cycle), t) <==> (t - at - p.phase) % p.interval == 0 {
      assert Epoch(cycle, cycle) == 0 by { ModUnique(cycle, cycle, 1, 0); }
      var t: nat := p.phase;
      ModUnique(0, p.interval, 0, 0);
      assert Fires(p, Epoch(cycle, cycle), t);
      assert (t - cycle - p.phase) % p.interval == 0;
      NegatedRemainder(cycle, p.interval);
      assert false;
    }
  }

  lemma {:induction false} NegatedRemainder(a: int, n: nat)
    requires n > 0 && (0 - a) % n == 0
    ensures a % n == 0
  {
    var q := (0 - a) / n;
    assert a == n * -q;
    ModUnique(a, n, -q, 0);
  }

  // ---- Whole runs ----

  /** The epochs of a run whose steps have these FlexRay cycle numbers: resynced where the number changes. */
  ghost predicate Resyncs(ins: seq<Input>, numbers: seq<nat>, cycle: nat)
    requires cycle > 0
  {
    && |numbers| == |ins|
    && forall t | 0 < t < |ins| ::
         ins[t].epoch == if numbers[t] != numbers[t - 1] then Epoch(ins[t - 1].tick, cycle) else ins[t - 1].epoch
  }

  /** The step before the last change of the cycle number up to step t: its tick is the last one before the resync. */
  function LastResync(numbers: seq<nat>, t: nat): (r: Option<nat>)
    requires t < |numbers|
    ensures r.Some? ==> r.value < t && numbers[r.value + 1] != numbers[r.value]
  {
    if t == 0 then None else if numbers[t] != numbers[t - 1] then Some(t - 1) else LastResync(numbers, t - 1)
  }

  lemma {:induction false} ResyncedEpoch(ins: seq<Input>, numbers: seq<nat>, cycle: nat, t: nat)
    requires cycle > 0 && Resyncs(ins, numbers, cycle) && t < |ins| && LastResync(numbers, t).Some?
    ensures ins[t].epoch == Epoch(ins[LastResync(numbers, t).value].tick, cycle)
  {
    hide Epoch;
    if numbers[t] == numbers[t - 1] {
      ResyncedEpoch(ins, numbers, cycle, t - 1);
    }
  }

  /**
   * Over any run with resyncs, once past its base a periodic PDU is sent exactly at the ticks congruent to that of the
   * last resync plus its phase, unless its payload hashes to 0.
   */
  lemma {:induction false} ResyncTrace(n: Net, ins: seq<Input>, numbers: seq<nat>, cycle: nat, k: nat, t: nat)
    requires Initial(n) && InputsFor(n, ins) && k < |n.pdus| && t < |ins|
    requires Standalone(n.pdus[k]) && DistinctTxIds(n.pdus) && Forced(n.pdus[k])
    requires cycle > 0 && Divides(n.pdus[k].interval, cycle) && Resyncs(ins, numbers, cycle)
    requires LastResync(numbers, t).Some? && ins[t].tick >= Base(n.pdus[k], ins[t].epoch)
    ensures var p, at := n.pdus[k], ins[LastResync(numbers, t).value].tick;
            SentAt(n, ins, k, t) <==>
            && (ins[t].tick - at - p.phase) % p.interval == 0
            && PayloadHash(PayloadAfter(n, ins, k, t + 1)) != 0
  {
    hide Valid, Initial, SentAt, PayloadAfter, PayloadHash, Epoch, Divides, InputsFor, DistinctTxIds;
    var p, at := n.pdus[k], ins[LastResync(numbers, t).value].tick;
    ResyncedEpoch(ins, numbers, cycle, t);
    PeriodicTrace(n, ins, k, t);
    FiresFromResync(p, at, cycle, ins[t].tick);
  }
}
