/** Sub-stepping: the importer's step is made of as many simulation steps as fit. */
module Runtime {

  /** The time after k simulation steps. */
  function TimeAt(k: nat, step: real): real {
    if k == 0 then 0.0 else TimeAt(k - 1, step) + step
  }

  lemma {:induction false} TimeProduct(k: nat, step: real)
    ensures TimeAt(k, step) == k as real * step
  {
    if k > 0 {
      TimeProduct(k - 1, step);
      assert k as real == (k - 1) as real + 1.0;
      assert ((k - 1) as real + 1.0) * step == (k - 1) as real * step + step;
    }
  }

  function Epsilon(step: real): real {
    step * 0.01
  }

  /** The number of steps that fit before stop, give or take epsilon. */
  function Fits(stop: real, step: real): int
    requires step > 0.0
  {
    ((stop + Epsilon(step)) / step).Floor
  }

  lemma {:induction false} FitsWrittenOut(stop: real, step: real)
    requires step > 0.0
    ensures Fits(stop, step) == ((stop + step * 0.01) / step).Floor && Epsilon(step) == step * 0.01
  {}

  /** Fits is where the time of the next step would pass stop + epsilon. */
  lemma {:induction false} FitsExactly(stop: real, step: real, k: nat)
    requires step > 0.0
    ensures k <= Fits(stop, step) <==> TimeAt(k, step) <= stop + Epsilon(step)
  {
    TimeProduct(k, step);
    var x := (stop + Epsilon(step)) / step;
    assert x * step == stop + Epsilon(step);
    if k as real <= x {
      assert (x - k as real) * step >= 0.0;
    } else {
      assert (k as real - x) * step > 0.0;
    }
  }

  /** The total number of steps once stop is requested after k steps. */
  function StepsTo(k: nat, stop: real, step: real): nat
    requires step > 0.0
  {
    if k >= Fits(stop, step) then k else Fits(stop, step)
  }

  /** The total number of steps after a sequence of calls. */
  function StepsAfter(stops: seq<real>, step: real): nat
    requires step > 0.0
  {
    if stops == [] then 0 else StepsTo(StepsAfter(stops[..|stops| - 1], step), stops[|stops| - 1], step)
  }

  predicate NonDecreasing(stops: seq<real>) {
    forall i, j | 0 <= i < j < |stops| :: stops[i] <= stops[j]
  }

  lemma {:induction false} FitsMonotone(a: real, b: real, step: real)
    requires step > 0.0 && a <= b
    ensures Fits(a, step) <= Fits(b, step)
  {
    if Fits(a, step) >= 0 {
      FitsExactly(a, step, Fits(a, step));
      FitsExactly(b, step, Fits(a, step));
    } else {
      var x, y := (a + Epsilon(step)) / step, (b + Epsilon(step)) / step;
      assert (y - x) * step == b - a;
      assert y >= x;
    }
  }

  /** However the stop times are partitioned, the total is the number of steps that fit before the last one. */
  lemma {:induction false} PartitionIndependent(stops: seq<real>, step: real)
    requires step > 0.0 && stops != [] && NonDecreasing(stops)
    ensures var fits := ((stops[|stops| - 1] + step * 0.01) / step).Floor;
            StepsAfter(stops, step) == if fits >= 0 then fits else 0
  {
    FitsWrittenOut(stops[|stops| - 1], step);
    hide Fits;
    var n := |stops| - 1;
    if n > 0 {
      PartitionIndependent(stops[..n], step);
      FitsMonotone(stops[n - 1], stops[n], step);
    }
  }

  /** So the model time is within a step below, and epsilon above, the last stop time. */
  lemma {:induction false} TimeReached(stops: seq<real>, step: real)
    requires step > 0.0 && stops != [] && NonDecreasing(stops) && stops[|stops| - 1] >= 0.0 - step * 0.01
    ensures var last, time := stops[|stops| - 1], StepsAfter(stops, step) as real * step;
            last + step * 0.01 - step < time <= last + step * 0.01
  {
    FitsWrittenOut(stops[|stops| - 1], step);
    TimeProduct(StepsAfter(stops, step), step);
    TimeProduct(StepsAfter(stops, step) + 1, step);
    hide Fits;
    PartitionIndependent(stops, step);
    var last := stops[|stops| - 1];
    FitsExactly(last, step, 0);
    var k := StepsAfter(stops, step);
    FitsExactly(last, step, k);
    FitsExactly(last, step, k + 1);
  }

  class RuntimeModel {
    const step: real
    var modelTime: real
    var correction: real
    ghost var syncs: nat

    /** The time is that of the steps taken; in exact arithmetic the Kahan correction stays 0. */
    ghost predicate Valid()
      reads this
    {
      step > 0.0 && correction == 0.0 && modelTime == TimeAt(syncs, step)
    }

    constructor (stepSize: real)
      requires stepSize > 0.0
      ensures Valid() && step == stepSize && syncs == 0
    {
      step, modelTime, correction := stepSize, 0.0, 0.0;
      syncs := 0;
    }

    /** Steps up to stop; called syncs is the number of calls to the simulation. */
    method Step(stop: real) returns (time: real, called: nat)
      requires Valid()
      modifies this
      ensures Valid() && time == stop && called == syncs - old(syncs) && modelTime == syncs as real * step
      ensures var fits := ((stop + step * 0.01) / step).Floor;
              syncs == StepsTo(old(syncs), stop, step) == if old(syncs) >= fits then old(syncs) else fits
    {
      FitsWrittenOut(stop, step);
      hide Fits;
      var epsilon := step * 0.01;
      var now, current, next, more := modelTime, 0.0, 0.0, true;
      called := 0;
      ghost var start := syncs;
      while more
        invariant step > 0.0 && correction == 0.0 && now == TimeAt(syncs, step) && called == syncs - start
        invariant syncs == start || syncs <= Fits(stop, step)
        invariant !more ==> syncs >= Fits(stop, step)
        decreases more, Fits(stop, step) - syncs
      {
        current, next := now, stop;
        FitsExactly(stop, step, syncs);
        FitsExactly(stop, step, syncs + 1);
        if current >= next {
          break;
        }
        var y := step - correction;
        var t := current + y;
        var stepCorrection := t - current - y;
        next := t;
        if next > stop + epsilon {
          break;
        }
        correction := stepCorrection;
        called := called + 1;
        syncs := syncs + 1;
        now := next;
        more := next + epsilon < stop;
        FitsExactly(stop, step, syncs + 1);
      }
      TimeProduct(syncs, step);
      modelTime := now;
      time := stop;
    }
  }
}
