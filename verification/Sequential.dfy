/** Sequential co-simulation: values threaded through the stacked models, against one shared store. */
module Sequential {
  import opened BusData
  import opened Scaling

  /** A scalar signal in a model's adapter. */
  datatype Scalar = Scalar(val: real, fin: real)

  type Signals = map<Key, Scalar>

  /** What a model computes in this step from the values it is given; signals it does not write keep their value. */
  type StepFunction = (nat, map<Key, real>) -> map<Key, real>

  function Vals(x: Signals): map<Key, real> {
    map k | k in x :: x[k].val
  }

  function Result(f: StepFunction, i: nat, vals: map<Key, real>, k: Key): real
    requires k in vals
  {
    var out := f(i, vals);
    if k in out then out[k] else vals[k]
  }

  // ---- The shared store ----

  function Seen(store: map<Key, real>, keys: set<Key>): map<Key, real>
    requires keys <= store.Keys
  {
    map k | k in keys :: store[k]
  }

  /** Every model in turn reads and writes the store. */
  function Shared(store: map<Key, real>, f: StepFunction, keys: seq<set<Key>>, n: nat): (r: map<Key, real>)
    requires n <= |keys| && forall i | 0 <= i < |keys| :: keys[i] <= store.Keys
    ensures r.Keys == store.Keys
  {
    if n == 0 then store else
    var s := Shared(store, f, keys, n - 1);
    var seen := Seen(s, keys[n - 1]);
    map k | k in s :: if k in keys[n - 1] then Result(f, n - 1, seen, k) else s[k]
  }

  /** The last of the first n models that holds k. */
  function LastHolder(keys: seq<set<Key>>, n: nat, k: Key): (h: Option<nat>)
    requires n <= |keys|
    ensures h.Some? ==> h.value < n && k in keys[h.value] && forall i | h.value < i < n :: k !in keys[i]
    ensures h.None? ==> forall i | 0 <= i < n :: k !in keys[i]
  {
    if n == 0 then None else if k in keys[n - 1] then Some(n - 1) else LastHolder(keys, n - 1, k)
  }

  /** The last of the first n models, other than t, that holds k. */
  function LastOther(keys: seq<set<Key>>, n: nat, t: nat, k: Key): (h: Option<nat>)
    requires n <= |keys|
    ensures h.Some? ==> h.value < n && h.value != t && k in keys[h.value] && forall i | h.value < i < n
        && i != t :: k !in keys[i]
    ensures h.None? ==> forall i | 0 <= i < n && i != t :: k !in keys[i]
  {
    if n == 0 then None else if n - 1 != t && k in keys[n - 1] then Some(n - 1) else LastOther(keys, n - 1, t, k)
  }

  ghost predicate LastOtherStep(keys: seq<set<Key>>, n: nat, t: nat, k: Key)
    requires n < |keys|
  {
    LastOther(keys, n + 1, t, k) == if n != t && k in keys[n] then Some(n) else LastOther(keys, n, t, k)
  }

  lemma {:induction false} LastOtherNext(keys: seq<set<Key>>, n: nat, t: nat, k: Key)
    requires n < |keys|
    ensures LastOtherStep(keys, n, t, k)
  {}

  /** Nobody between writes. */
  lemma {:induction false} SharedBetween(store: map<Key, real>, f: StepFunction, keys: seq<set<Key>>, m: nat, n: nat,
                                         k: Key)
    requires m <= n <= |keys| && (forall i | 0 <= i < |keys| :: keys[i] <= store.Keys) && k in store
    requires forall i | m <= i < n :: k !in keys[i]
    ensures Shared(store, f, keys, n)[k] == Shared(store, f, keys, m)[k]
  {
    if m < n {
      SharedBetween(store, f, keys, m, n - 1, k);
    }
  }

  /** What model i returns, from the values of its signals in the store after the models before it. */
  function OutputsOf(store: map<Key, real>, f: StepFunction, keys: seq<set<Key>>, i: nat): map<Key, real>
    requires i < |keys| && forall j | 0 <= j < |keys| :: keys[j] <= store.Keys
  {
    f(i, map j | j in keys[i] :: Shared(store, f, keys, i)[j])
  }

  /** The model has signal k and writes it. */
  predicate Outputs(store: map<Key, real>, f: StepFunction, keys: seq<set<Key>>, i: nat, k: Key)
    requires i < |keys| && forall j | 0 <= j < |keys| :: keys[j] <= store.Keys
  {
    k in keys[i] && k in OutputsOf(store, f, keys, i)
  }

  lemma {:induction false} SharedStep(store: map<Key, real>, f: StepFunction, keys: seq<set<Key>>, i: nat, k: Key)
    requires i < |keys| && (forall j | 0 <= j < |keys| :: keys[j] <= store.Keys) && k in store
    ensures Shared(store, f, keys, i + 1)[k] ==
            if Outputs(store, f, keys, i, k) then OutputsOf(store, f, keys, i)[k] else Shared(store, f, keys, i)[k]
  {
    var s := Shared(store, f, keys, i);
    assert Seen(s, keys[i]) == map j | j in keys[i] :: s[j];
  }

  /** A signal that nobody writes keeps its value. */
  lemma {:induction false} UnwrittenKept(store: map<Key, real>, f: StepFunction, keys: seq<set<Key>>, m: nat, n: nat,
                                         k: Key)
    requires m <= n <= |keys| && (forall j | 0 <= j < |keys| :: keys[j] <= store.Keys) && k in store
    requires forall i | m <= i < n :: !Outputs(store, f, keys, i, k)
    ensures Shared(store, f, keys, n)[k] == Shared(store, f, keys, m)[k]
  {
    hide Shared, Outputs;
    if m < n {
      UnwrittenKept(store, f, keys, m, n - 1, k);
      SharedStep(store, f, keys, n - 1, k);
    }
  }

  /** A signal that somebody writes takes what the last that writes it returned. */
  lemma {:induction false} LastOutputWins(store: map<Key, real>, f: StepFunction, keys: seq<set<Key>>, m: nat, n: nat,
                                          k: Key)
    requires m < n <= |keys| && (forall j | 0 <= j < |keys| :: keys[j] <= store.Keys) && k in store
    requires Outputs(store, f, keys, m, k) && forall i | m < i < n :: !Outputs(store, f, keys, i, k)
    ensures Shared(store, f, keys, n)[k] == OutputsOf(store, f, keys, m)[k]
  {
    SharedStep(store, f, keys, m, k);
    hide Shared, Outputs, OutputsOf;
    UnwrittenKept(store, f, keys, m + 1, n, k);
  }

  /** The first of the first n models that holds k. */
  function FirstOf(keys: seq<set<Key>>, n: nat, k: Key): (h: Option<nat>)
    requires n <= |keys|
    ensures h.Some? ==> h.value < n && k in keys[h.value] && forall i | 0 <= i < h.value :: k !in keys[i]
    ensures h.None? ==> forall i | 0 <= i < n :: k !in keys[i]
  {
    if n == 0 then None else
    var h := FirstOf(keys, n - 1, k);
    if h.Some? then h else if k in keys[n - 1] then Some(n - 1) else None
  }

  function AllKeys(keys: seq<set<Key>>): (r: set<Key>)
    ensures forall i | 0 <= i < |keys| :: keys[i] <= r
    ensures forall k | k in r :: FirstOf(keys, |keys|, k).Some?
  {
    set i, k | 0 <= i < |keys| && k in keys[i] :: k
  }

  ghost predicate HasKeys(sv: seq<Signals>, keys: seq<set<Key>>) {
    |sv| == |keys| && forall h | 0 <= h < |keys| :: sv[h].Keys == keys[h]
  }

  /** The store as the models have it: each signal with the val of the first model that holds it. */
  ghost function StoreOf(keys: seq<set<Key>>, sv: seq<Signals>): (r: map<Key, real>)
    requires HasKeys(sv, keys)
    ensures r.Keys == AllKeys(keys)
  {
    map k | k in AllKeys(keys) :: sv[FirstOf(keys, |keys|, k).value][k].val
  }

  /** What a step leaves: model h has seen the store after h models, and all hold the store after the last. */
  function Ran(store: map<Key, real>, f: StepFunction, keys: seq<set<Key>>): (r: seq<Signals>)
    requires forall i | 0 <= i < |keys| :: keys[i] <= store.Keys
    ensures |r| == |keys| && forall h | 0 <= h < |keys| :: r[h].Keys == keys[h]
  {
    seq(|keys|, h requires 0 <= h < |keys| =>
      map k | k in keys[h] :: Scalar(Shared(store, f, keys, h)[k], Shared(store, f, keys, |keys|)[k]))
  }

  // ---- The stack ----

  ghost predicate Distinct(s: seq<Key>) {
    forall i, j | 0 <= i < j < |s| :: s[i] != s[j]
  }

  /** Models sharing a channel declare the same signals on it. */
  ghost predicate SameSignals(chans: seq<set<nat>>, keys: seq<set<Key>>)
    requires |keys| == |chans|
  {
    && (forall i, k | 0 <= i < |keys| && k in keys[i] :: k.ch in chans[i])
    && (forall i, j, k | 0 <= i < |keys| && 0 <= j < |keys| && k in keys[i] && k.ch in chans[j] :: k in keys[j])
  }

  /** The first model that holds a signal sees the store's value. */
  ghost predicate FirstVals(keys: seq<set<Key>>, sv: seq<Signals>, store: map<Key, real>)
    requires |sv| == |keys| && forall h | 0 <= h < |keys| :: sv[h].Keys == keys[h] && keys[h] <= store.Keys
  {
    forall h, k | 0 <= h < |sv| && k in sv[h] && LastHolder(keys, h, k).None? :: sv[h][k].val == store[k]
  }

  // ---- Merging one model's signals into another's ----

  method TakeVals(x: Signals, from: Signals, signals: seq<Key>, chs: set<nat>) returns (r: Signals)
    requires forall i | 0 <= i < |signals| :: signals[i] in x && (signals[i].ch in chs <==> signals[i] in from)
    requires forall k | k in x :: k in signals
    ensures r.Keys == x.Keys && forall k | k in x :: r[k] == if k in from then x[k].(val := from[k].fin) else x[k]
  {
    r := x;
    for i := 0 to |signals|
      invariant r.Keys == x.Keys
      invariant forall k | k in x :: r[k] == if k in signals[..i] && k in from then x[k].(val := from[k].fin) else x[k]
    {
      var k := signals[i];
      if k.ch in chs {
        r := r[k := r[k].(val := from[k].fin)];
      }
      assert signals[..i + 1] == signals[..i] + [k];
    }
    assert signals[..|signals|] == signals;
  }

  method TakeFins(x: Signals, from: Signals, signals: seq<Key>, chs: set<nat>) returns (r: Signals)
    requires forall i | 0 <= i < |signals| :: signals[i] in x && (signals[i].ch in chs <==> signals[i] in from)
    requires forall k | k in x :: k in signals
    ensures r.Keys == x.Keys && forall k | k in x :: r[k] == if k in from then x[k].(fin := from[k].fin) else x[k]
  {
    r := x;
    for i := 0 to |signals|
      invariant r.Keys == x.Keys
      invariant forall k | k in x :: r[k] == if k in signals[..i] && k in from then x[k].(fin := from[k].fin) else x[k]
    {
      var k := signals[i];
      if k.ch in chs {
        r := r[k := r[k].(fin := from[k].fin)];
      }
      assert signals[..i + 1] == signals[..i] + [k];
    }
    assert signals[..|signals|] == signals;
  }

  // ---- Merging the other models into one, one after another ----

  /** In now the other models before s are merged into target, in was none. */
  ghost predicate Backed(keys: seq<set<Key>>, was: seq<Signals>, now: seq<Signals>, s: nat, target: nat)
    requires s <= |keys| && target < |keys|
  {
    && HasKeys(was, keys) && HasKeys(now, keys) && (forall h | 0 <= h < |keys| && h != target :: now[h] == was[h])
    && forall k | k in now[target] ::
         var h := LastOther(keys, s, target, k);
         now[target][k] == Scalar(was[target][k].val, if h.Some? then was[h.value][k].fin else was[target][k].fin)
  }

  lemma {:induction false} BackedNext(keys: seq<set<Key>>, was: seq<Signals>, before: seq<Signals>, now: seq<Signals>,
                                      s: nat, target: nat)
    requires s < |keys| && target < |keys| && Backed(keys, was, before, s, target) && HasKeys(now, keys)
    requires forall h | 0 <= h < |keys| && h != target :: now[h] == before[h]
    requires if s == target then now == before else
               forall k | k in now[target] :: now[target][k] ==
                 Scalar(before[target][k].val, if k in before[s] then before[s][k].fin else before[target][k].fin)
    ensures Backed(keys, was, now, s + 1, target)
  {
    hide LastOther;
    forall k | k in now[target]
      ensures var h := LastOther(keys, s + 1, target, k);
              now[target][k] == Scalar(was[target][k].val, if h.Some? then was[h.value][k].fin else was[target][k].fin)
    {
      LastOtherNext(keys, s, target, k);
    }
  }

  lemma {:induction false} NothingBacked(keys: seq<set<Key>>, sv: seq<Signals>, target: nat)
    requires target < |keys| && HasKeys(sv, keys)
    ensures Backed(keys, sv, sv, 0, target)
  {}

  lemma {:induction false} AllBacked(keys: seq<set<Key>>, was: seq<Signals>, now: seq<Signals>, target: nat)
    requires target < |keys| && Backed(keys, was, now, |keys|, target)
    ensures HasKeys(was, keys) && HasKeys(now, keys) && forall h | 0 <= h < |keys| && h != target :: now[h] == was[h]
    ensures forall k | k in now[target] ::
              var h := LastOther(keys, |keys|, target, k);
              now[target][k] == Scalar(was[target][k].val, if h.Some? then was[h.value][k].fin else was[target][k].fin)
  {
    hide LastOther;
  }

  class Stack {
    const chans: seq<set<nat>>
    const index: seq<seq<Key>>
    var sv: seq<Signals>

    ghost function Keys(): (r: seq<set<Key>>)
      ensures |r| == |index|
    {
      seq(|index|, i requires 0 <= i < |index| => set k | k in index[i])
    }

    ghost predicate Valid()
      reads this
    {
      && |chans| == |index| == |sv|
      && (forall i | 0 <= i < |index| :: Distinct(index[i]))
      && (forall i | 0 <= i < |index| :: sv[i].Keys == Keys()[i])
      && SameSignals(chans, Keys())
    }

    constructor (channels: seq<set<nat>>, signals: seq<seq<Key>>, initial: seq<Signals>)
      requires |channels| == |signals| == |initial| && forall i | 0 <= i < |signals| :: Distinct(signals[i])
      requires forall i, k | 0 <= i < |signals| :: k in initial[i] <==> k in signals[i]
      requires forall i, k | 0 <= i < |signals| && k in signals[i] :: k.ch in channels[i]
      requires forall i, j, k | 0 <= i < |signals| && 0 <= j < |signals| && k in signals[i]
          && k.ch in channels[j] :: k in signals[j]
      ensures Valid() && chans == channels && index == signals && sv == initial
    {
      chans, index, sv := channels, signals, initial;
    }

    /** Where source has the channel of a signal of target, it has the signal. */
    lemma {:induction false} SharedChannel(source: nat, target: nat)
      requires Valid() && source < |sv| && target < |sv|
      ensures forall i | 0 <= i < |index[target]| ::
                var k := index[target][i]; k in sv[target] && (k.ch in chans[source] <==> k in sv[source])
      ensures forall k | k in sv[target] :: k in index[target]
    {
      forall i | 0 <= i < |index[target]|
        ensures var k := index[target][i]; k in sv[target] && (k.ch in chans[source] <==> k in sv[source])
      {
        var k := index[target][i];
        assert k in Keys()[target];
        if k in sv[source] {
          assert k in Keys()[source];
        }
      }
      forall k | k in sv[target] ensures k in index[target] {
        assert k in Keys()[target];
      }
    }

    lemma {:induction false} SameKeysValid(target: nat, x: Signals)
      requires Valid() && target < |sv| && x.Keys == sv[target].Keys
      ensures forall h | 0 <= h < |index| :: (if h == target then x else sv[h]).Keys == Keys()[h]
    {}

    /** val of every signal of target takes final_val of source, where source has the channel. */
    method ForwardFrom(source: nat, target: nat)
      requires Valid() && source < |sv| && target < |sv| && source != target
      modifies this`sv
      ensures Valid() && |sv| == |old(sv)| && forall h | 0 <= h < |sv| && h != target :: sv[h] == old(sv)[h]
      ensures forall k | k in sv[target] :: sv[target][k] ==
                Scalar(if k in old(sv)[source] then old(sv)[source][k].fin else old(sv)[target][k].val,
                    old(sv)[target][k].fin)
    {
      SharedChannel(source, target);
      hide SameSignals, Distinct, Keys;
      var x := TakeVals(sv[target], sv[source], index[target], chans[source]);
      SameKeysValid(target, x);
      sv := sv[target := x];
    }

    method BackwardFrom(source: nat, target: nat)
      requires Valid() && source < |sv| && target < |sv| && source != target
      modifies this`sv
      ensures Valid() && |sv| == |old(sv)| && forall h | 0 <= h < |sv| && h != target :: sv[h] == old(sv)[h]
      ensures forall k | k in sv[target] :: sv[target][k] ==
                Scalar(old(sv)[target][k].val, if k in old(sv)[source] then
                    old(sv)[source][k].fin else old(sv)[target][k].fin)
    {
      SharedChannel(source, target);
      hide SameSignals, Distinct, Keys;
      var x := TakeFins(sv[target], sv[source], index[target], chans[source]);
      SameKeysValid(target, x);
      sv := sv[target := x];
    }

    /** Each signal of target takes the final_val of the last model before it that holds it. */
    method MergeForward(target: nat)
      requires Valid() && target < |sv|
      modifies this`sv
      ensures Valid() && |sv| == |old(sv)| && forall h | 0 <= h < |sv| && h != target :: sv[h] == old(sv)[h]
      ensures forall k | k in sv[target] ::
                var h := LastHolder(Keys(), target, k);
                sv[target][k] == Scalar(if h.Some? then old(sv)[h.value][k].fin else old(sv)[target][k].val,
                    old(sv)[target][k].fin)
    {
      hide SameSignals, Distinct, Keys;
      ghost var was := sv;
      for s := 0 to target
        invariant Valid() && |sv| == |was| && forall h | 0 <= h < |sv| && h != target :: sv[h] == was[h]
        invariant forall k | k in sv[target] ::
                    var h := LastHolder(Keys(), s, k);
                    sv[target][k] == Scalar(if h.Some? then was[h.value][k].fin else was[target][k].val,
                        was[target][k].fin)
      {
        ForwardFrom(s, target);
      }
    }

    /** The model steps: its outputs become final_val. */
    method StepModel(f: StepFunction, target: nat)
      requires Valid() && target < |sv|
      modifies this`sv
      ensures Valid() && |sv| == |old(sv)| && forall h | 0 <= h < |sv| && h != target :: sv[h] == old(sv)[h]
      ensures forall k | k in sv[target] ::
                sv[target][k] == Scalar(old(sv)[target][k].val, Result(f, target, Vals(old(sv)[target]), k))
    {
      SharedChannel(target, target);
      hide SameSignals, Distinct, Keys;
      var x, signals := sv[target], index[target];
      var vals := Vals(x);
      var out := f(target, vals);
      ghost var was := x;
      for i := 0 to |signals|
        invariant x.Keys == was.Keys
        invariant forall k | k in x :: x[k] ==
                    if k in signals[..i] then was[k].(fin := Result(f, target, vals, k)) else was[k]
      {
        var k := signals[i];
        x := x[k := x[k].(fin := if k in out then out[k] else vals[k])];
        assert signals[..i + 1] == signals[..i] + [k];
      }
      assert signals[..|signals|] == signals;
      SameKeysValid(target, x);
      sv := sv[target := x];
    }

    method BackOne(ghost was: seq<Signals>, s: nat, target: nat)
      requires Valid() && s < |sv| && target < |sv| && Backed(Keys(), was, sv, s, target)
      modifies this`sv
      ensures Valid() && |sv| == |old(sv)| && Backed(Keys(), was, sv, s + 1, target)
    {
      hide SameSignals, Distinct, LastOther, Keys, Backed;
      ghost var before: seq<Signals> := sv;
      if s != target {
        BackwardFrom(s, target);
      }
      BackedNext(Keys(), was, before, sv, s, target);
    }

    /** Each signal of target takes the final_val of the last other model that holds it. */
    method MergeBackward(target: nat)
      requires Valid() && target < |sv|
      modifies this`sv
      ensures Valid() && |sv| == |old(sv)| && forall h | 0 <= h < |sv| && h != target :: sv[h] == old(sv)[h]
      ensures forall k | k in sv[target] ::
                var h := LastOther(Keys(), |sv|, target, k);
                sv[target][k] == Scalar(old(sv)[target][k].val,
                    if h.Some? then old(sv)[h.value][k].fin else old(sv)[target][k].fin)
    {
      hide SameSignals, Distinct, LastOther, Keys, Backed;
      ghost var was := sv;
      NothingBacked(Keys(), sv, target);
      for s := 0 to |sv|
        invariant Valid() && |sv| == |was| && Backed(Keys(), was, sv, s, target)
      {
        BackOne(was, s, target);
      }
      AllBacked(Keys(), was, sv, target);
    }

    /** The models before n have brought the store to where Shared has it. */
    ghost predicate Threaded(store: map<Key, real>, f: StepFunction, n: nat)
      requires Valid() && n <= |sv| && forall i | 0 <= i < |Keys()| :: Keys()[i] <= store.Keys
      reads this
    {
      forall k | k in store ::
        var h := LastHolder(Keys(), n, k); h.Some? ==> sv[h.value][k].fin == Shared(store, f, Keys(), n)[k]
    }

    ghost predicate FirstSees(store: map<Key, real>)
      requires Valid() && forall i | 0 <= i < |Keys()| :: Keys()[i] <= store.Keys
      reads this
    {
      FirstVals(Keys(), sv, store)
    }

    /** The first n models have seen the store as the ones before them left it. */
    ghost predicate Saw(store: map<Key, real>, f: StepFunction, n: nat)
      requires Valid() && n <= |sv| && forall i | 0 <= i < |Keys()| :: Keys()[i] <= store.Keys
      reads this
    {
      forall h, k | 0 <= h < n && k in sv[h] :: sv[h][k].val == Shared(store, f, Keys(), h)[k]
    }

    method StepOne(f: StepFunction, ghost store: map<Key, real>, t: nat)
      requires Valid() && t < |sv| && (forall i | 0 <= i < |Keys()| :: Keys()[i] <= store.Keys)
      requires Threaded(store, f, t) && FirstSees(store) && Saw(store, f, t)
      modifies this`sv
      ensures Valid() && |sv| == |old(sv)| && Threaded(store, f, t + 1) && FirstSees(store) && Saw(store, f, t + 1)
    {
      ghost var keys, was := Keys(), sv;
      ghost var s := Shared(store, f, keys, t);
      MergeForward(t);
      forall k | k in sv[t] ensures sv[t][k].val == s[k] {
        if LastHolder(keys, t, k).None? {
          SharedBetween(store, f, keys, 0, t, k);
        }
      }
      assert Vals(sv[t]) == Seen(s, keys[t]);
      ghost var mid := sv;
      StepModel(f, t);
      forall k | k in store && LastHolder(keys, t + 1, k).Some?
        ensures sv[LastHolder(keys, t + 1, k).value][k].fin == Shared(store, f, keys, t + 1)[k]
      {
        if k !in keys[t] {
          assert LastHolder(keys, t + 1, k) == LastHolder(keys, t, k);
        }
      }
    }

    /**
     * Steps the models left to right, then merges their values: afterwards every model has seen and holds what it would
     * with one store that they all read and write in turn.
     */
    method StepModels(f: StepFunction)
      requires Valid()
      modifies this`sv
      ensures Valid() && sv == Ran(StoreOf(Keys(), old(sv)), f, Keys())
    {
      hide Threaded, FirstSees, Saw, SameSignals, Distinct, StoreOf, Ran;
      ghost var store := StoreOf(Keys(), sv);
      NothingThreaded(f, store);
      FirstSeesOwn();
      for t := 0 to |sv|
        invariant Valid() && |sv| == |old(sv)| && Threaded(store, f, t) && FirstSees(store) && Saw(store, f, t)
      {
        StepOne(f, store, t);
      }
      MergeAll(f, store);
      IsRan(f, store);
    }

    lemma {:induction false} FirstSeesOwn()
      requires Valid()
      ensures FirstSees(StoreOf(Keys(), sv))
    {
      hide Distinct, SameSignals;
      OwnFirstVals(Keys(), sv);
    }

    lemma {:induction false} IsRan(f: StepFunction, store: map<Key, real>)
      requires Valid() && (forall i | 0 <= i < |Keys()| :: Keys()[i] <= store.Keys) && Saw(store, f, |sv|)
      requires forall h, k | 0 <= h < |sv| && k in sv[h] :: sv[h][k].fin == Shared(store, f, Keys(), |sv|)[k]
      ensures sv == Ran(store, f, Keys())
    {
      hide Distinct, SameSignals, Shared;
      var r: seq<Signals> := Ran(store, f, Keys());
      forall h | 0 <= h < |sv| ensures sv[h] == r[h] {
        assert sv[h].Keys == Keys()[h];
      }
    }

    lemma {:induction false} NothingThreaded(f: StepFunction, store: map<Key, real>)
      requires Valid() && forall i | 0 <= i < |Keys()| :: Keys()[i] <= store.Keys
      ensures Threaded(store, f, 0) && Saw(store, f, 0)
    {}

    /** The models before t have the store's values, the others what was computed. */
    ghost predicate Merged(was: seq<Signals>, s: map<Key, real>, t: nat)
      reads this
    {
      && |was| == |sv|
      && forall h, k | 0 <= h < |sv| && k in sv[h] ::
           k in s && k in was[h] && sv[h][k] == if h < t then Scalar(was[h][k].val, s[k]) else was[h][k]
    }

    lemma {:induction false} MergedAt(was: seq<Signals>, s: map<Key, real>, t: nat, h: nat, k: Key)
      requires Merged(was, s, t) && h < |sv| && k in sv[h]
      ensures k in s && h < |was| && k in was[h] && sv[h][k] == if h < t then Scalar(was[h][k].val, s[k]) else was[h][k]
    {}

    method MergeOne(ghost was: seq<Signals>, ghost s: map<Key, real>, t: nat)
      requires Valid() && t < |sv| && Merged(was, s, t) && LastHave(Keys(), was, s)
      modifies this`sv
      ensures Valid() && |sv| == |old(sv)| && Merged(was, s, t + 1)
    {
      hide SameSignals, Distinct, LastHave, Keys;
      ghost var now: seq<Signals> := sv;
      forall h, k | 0 <= h < |now| && k in now[h]
        ensures k in s && k in was[h] && now[h][k].fin == if h < t then s[k] else was[h][k].fin
      {
        MergedAt(was, s, t, h, k);
      }
      MergeBackward(t);
      forall k | k in sv[t] ensures sv[t][k].fin == s[k] {
        HaveKeys(Keys(), was, s);
        LastWins(Keys(), was, s, now, t, k);
      }
    }

    method MergeAll(ghost f: StepFunction, ghost store: map<Key, real>)
      requires Valid() && (forall i | 0 <= i < |Keys()| :: Keys()[i] <= store.Keys)
      requires Threaded(store, f, |sv|) && Saw(store, f, |sv|)
      modifies this`sv
      ensures Valid() && |sv| == |old(sv)| && Saw(store, f, |sv|)
      ensures forall h, k | 0 <= h < |sv| && k in sv[h] :: sv[h][k].fin == Shared(store, f, Keys(), |sv|)[k]
    {
      hide SameSignals, Distinct, Keys;
      ghost var was, n := sv, |sv|;
      ghost var s := Shared(store, f, Keys(), n);
      for t := 0 to |sv|
        invariant Valid() && |sv| == n && Merged(was, s, t)
      {
        MergeOne(was, s, t);
      }
    }
  }

  lemma {:induction false} FirstIs(keys: seq<set<Key>>, h: nat, k: Key)
    requires h < |keys| && k in keys[h]
    ensures LastHolder(keys, h, k).None? <==> FirstOf(keys, |keys|, k) == Some(h)
  {
    hide FirstOf, LastHolder;
    var first, before := FirstOf(keys, |keys|, k), LastHolder(keys, h, k);
  }

  lemma {:induction false} StoreAt(keys: seq<set<Key>>, sv: seq<Signals>, h: nat, k: Key)
    requires HasKeys(sv, keys) && h < |keys| && k in sv[h] && LastHolder(keys, h, k).None?
    ensures k in AllKeys(keys) && StoreOf(keys, sv)[k] == sv[h][k].val
  {
    FirstIs(keys, h, k);
    hide FirstOf, LastHolder;
    assert keys[h] <= AllKeys(keys);
  }

  lemma {:induction false} OwnFirstVals(keys: seq<set<Key>>, sv: seq<Signals>)
    requires HasKeys(sv, keys)
    ensures FirstVals(keys, sv, StoreOf(keys, sv))
  {
    hide AllKeys, StoreOf, FirstOf, LastHolder;
    forall h, k | 0 <= h < |sv| && k in sv[h] && LastHolder(keys, h, k).None?
      ensures sv[h][k].val == StoreOf(keys, sv)[k]
    {
      StoreAt(keys, sv, h, k);
    }
  }

  lemma {:induction false} FirstValAt(keys: seq<set<Key>>, sv: seq<Signals>, store: map<Key, real>, k: Key)
    requires HasKeys(sv, keys) && store.Keys == AllKeys(keys) && FirstVals(keys, sv, store) && k in store
    ensures StoreOf(keys, sv)[k] == store[k]
  {
    hide AllKeys, StoreOf, FirstOf, LastHolder;
    var h := FirstOf(keys, |keys|, k).value;
    FirstIs(keys, h, k);
    StoreAt(keys, sv, h, k);
    assert sv[h][k].val == store[k];
  }

  lemma {:induction false} FirstValsOnly(keys: seq<set<Key>>, sv: seq<Signals>, store: map<Key, real>)
    requires HasKeys(sv, keys) && store.Keys == AllKeys(keys) && FirstVals(keys, sv, store)
    ensures StoreOf(keys, sv) == store
  {
    hide AllKeys, StoreOf, HasKeys, FirstVals;
    forall k | k in store ensures StoreOf(keys, sv)[k] == store[k] {
      FirstValAt(keys, sv, store, k);
    }
  }

  /** The last model that holds a signal has the store's value. */
  ghost predicate LastHave(keys: seq<set<Key>>, was: seq<Signals>, s: map<Key, real>) {
    && |was| == |keys| && (forall h | 0 <= h < |was| :: was[h].Keys == keys[h] && keys[h] <= s.Keys)
    && forall k | k in s :: LastHolder(keys, |keys|, k).Some? ==> was[LastHolder(keys, |keys|, k).value][k].fin == s[k]
  }

  lemma {:induction false} HaveKeys(keys: seq<set<Key>>, was: seq<Signals>, s: map<Key, real>)
    requires LastHave(keys, was, s)
    ensures |was| == |keys| && forall h | 0 <= h < |was| :: was[h].Keys == keys[h] && keys[h] <= s.Keys
  {}

  lemma {:induction false} LastWins(keys: seq<set<Key>>, was: seq<Signals>, s: map<Key, real>, now: seq<Signals>,
                                    t: nat, k: Key)
    requires LastHave(keys, was, s) && |now| == |was| && t < |was| && k in keys[t]
    requires forall h | 0 <= h < |was| :: now[h].Keys == keys[h]
    requires forall h | 0 <= h < |was| && k in now[h] :: now[h][k].fin == if h < t then s[k] else was[h][k].fin
    ensures var other := LastOther(keys, |keys|, t, k);
            (if other.Some? then now[other.value][k].fin else now[t][k].fin) == s[k]
  {
    var last, other := LastHolder(keys, |keys|, k), LastOther(keys, |keys|, t, k);
    assert last.Some?;
    if other.None? {
      assert last.value == t;
    } else if other.value >= t {
      assert last.value == other.value;
    }
  }

  // ---- The bus ----

  /** All writes of k, by whichever model and in whatever order, are of v. */
  ghost predicate AllWrite(vs: seq<Vector>, k: Key, v: real) {
    forall i | 0 <= i < |vs| && vs[i].ch == k.ch && k.sig in vs[i].scalars :: vs[i].scalars[k.sig] == v
  }

  /** The bus resolves to the common value, whatever the order, also when it is the bus's old value. */
  lemma {:induction false} AgreedResolves(sv: map<Key, Sv>, vs: seq<Vector>, k: Key, v: real)
    requires k in sv && sv[k].val == sv[k].fin && AllWrite(vs, k, v) && (Writes(vs, k) || v == sv[k].val)
    ensures WriteAll(sv, vs)[k].fin == v
  {
    if Writes(vs, k) {
      AgreedWritten(sv, vs, k, v);
    } else {
      Unwritten(sv, vs, k);
    }
  }

  lemma {:induction false} AgreedWritten(sv: map<Key, Sv>, vs: seq<Vector>, k: Key, v: real)
    requires k in sv && AllWrite(vs, k, v) && Writes(vs, k)
    ensures WriteAll(sv, vs)[k].fin == v
  {
    var n := |vs| - 1;
    if !(vs[n].ch == k.ch && k.sig in vs[n].scalars) {
      var i :| 0 <= i < |vs| && vs[i].ch == k.ch && k.sig in vs[i].scalars;
      assert vs[..n][i] == vs[i];
      AgreedWritten(sv, vs[..n], k, v);
    }
  }

  lemma {:induction false} Unwritten(sv: map<Key, Sv>, vs: seq<Vector>, k: Key)
    requires k in sv && !Writes(vs, k)
    ensures WriteAll(sv, vs)[k].fin == sv[k].fin
  {
    if vs != [] {
      var n := |vs| - 1;
      assert forall i | 0 <= i < n :: vs[..n][i] == vs[i];
      Unwritten(sv, vs[..n], k);
    }
  }

  /** The vectors carry what the models have changed: every change, and nothing else, in any order. */
  ghost predicate Encodes(vs: seq<Vector>, sv: seq<Signals>) {
    && (forall i, x | 0 <= i < |vs| && x in vs[i].scalars ::
          exists h :: 0 <= h < |sv| && Key(vs[i].ch, x) in sv[h] && sv[h][Key(vs[i].ch, x)].fin == vs[i].scalars[x])
    && (forall h, k | 0 <= h < |sv| && k in sv[h] && sv[h][k].val != sv[h][k].fin :: Writes(vs, k))
  }

  /** What StepModels leaves. */
  ghost predicate Agreed(keys: seq<set<Key>>, sv: seq<Signals>, store: map<Key, real>, shared: map<Key, real>) {
    && |sv| == |keys| && (forall h | 0 <= h < |keys| :: sv[h].Keys == keys[h] && keys[h] <= store.Keys)
    && shared.Keys == store.Keys && FirstVals(keys, sv, store)
    && (forall h, k | 0 <= h < |sv| && k in sv[h] :: sv[h][k].fin == shared[k])
    && (forall k | k in store && LastHolder(keys, |keys|, k).None? :: shared[k] == store[k])
  }

  /** The models' common values are those of the shared store. */
  lemma {:induction false} RanAgrees(keys: seq<set<Key>>, store: map<Key, real>, f: StepFunction)
    requires forall i | 0 <= i < |keys| :: keys[i] <= store.Keys
    ensures Agreed(keys, Ran(store, f, keys), store, Shared(store, f, keys, |keys|))
  {
    forall h, k | 0 <= h < |keys| && k in keys[h] && LastHolder(keys, h, k).None?
      ensures Shared(store, f, keys, h)[k] == store[k]
    {
      SharedBetween(store, f, keys, 0, h, k);
    }
    forall k | k in store && LastHolder(keys, |keys|, k).None? ensures Shared(store, f, keys, |keys|)[k] == store[k] {
      SharedBetween(store, f, keys, 0, |keys|, k);
    }
    hide Shared;
  }

  /** What model h sends for one of its channels: the adapter's encoding of its signals there. */
  function VectorOf(h: nat, ch: nat, x: Signals): Vector {
    var sigs := set k | k in x && k.ch == ch :: k.sig;
    Outgoing(h, ch, map u | u in sigs :: Sv(x[Key(ch, u)].val, x[Key(ch, u)].fin, []))
  }

  /** The vectors of all models and channels, in any order. */
  ghost predicate Sent(vs: seq<Vector>, sv: seq<Signals>, chans: seq<set<nat>>)
    requires |chans| == |sv|
  {
    forall v :: v in vs <==> exists h, ch :: 0 <= h < |sv| && ch in chans[h] && v == VectorOf(h, ch, sv[h])
  }

  lemma {:induction false} VectorHolds(h: nat, ch: nat, x: Signals, u: nat)
    ensures var k, v := Key(ch, u), VectorOf(h, ch, x);
            && v.ch == ch
            && (u in v.scalars <==> k in x && x[k].val != x[k].fin)
            && (u in v.scalars ==> v.scalars[u] == x[k].fin)
  {
    var k := Key(ch, u);
    if k in x {
      assert u in (set j | j in x && j.ch == ch :: j.sig);
    }
  }

  /** So they carry every change, and nothing else. */
  lemma {:induction false} SentEncodes(vs: seq<Vector>, sv: seq<Signals>, chans: seq<set<nat>>)
    requires |chans| == |sv| && Sent(vs, sv, chans) && forall h, k | 0 <= h < |sv| && k in sv[h] :: k.ch in chans[h]
    ensures Encodes(vs, sv)
  {
    hide VectorOf;
    forall i, x | 0 <= i < |vs| && x in vs[i].scalars
      ensures exists h :: 0 <= h < |sv| && Key(vs[i].ch, x) in sv[h] && sv[h][Key(vs[i].ch, x)].fin == vs[i].scalars[x]
    {
      assert vs[i] in vs;
      var h, ch :| 0 <= h < |sv| && ch in chans[h] && vs[i] == VectorOf(h, ch, sv[h]);
      VectorHolds(h, ch, sv[h], x);
    }
    forall h, k | 0 <= h < |sv| && k in sv[h] && sv[h][k].val != sv[h][k].fin ensures Writes(vs, k) {
      VectorHolds(h, k.ch, sv[h], k.sig);
      assert VectorOf(h, k.ch, sv[h]) in vs;
    }
  }

  /** The bus has the store's values. */
  ghost predicate Has(bus: map<Key, Sv>, store: map<Key, real>) {
    forall k | k in store :: k in bus && bus[k].val == bus[k].fin == store[k]
  }

  lemma {:induction false} FirstHolder(keys: seq<set<Key>>, n: nat, k: Key) returns (h: nat)
    requires n <= |keys| && LastHolder(keys, n, k).Some?
    ensures h < n && k in keys[h] && LastHolder(keys, h, k).None?
  {
    h := LastHolder(keys, n, k).value;
    if LastHolder(keys, h, k).Some? {
      h := FirstHolder(keys, h, k);
    }
  }

  /** One cycle: the bus ends up with the shared store, in whatever order the writes arrive. */
  lemma {:induction false} CycleResolves(keys: seq<set<Key>>, sv: seq<Signals>, store: map<Key, real>,
                                         shared: map<Key, real>,
                                         bus: map<Key, Sv>, vs: seq<Vector>)
    requires Agreed(keys, sv, store, shared) && Has(bus, store) && Encodes(vs, sv)
    ensures Has(Resolve(WriteAll(bus, vs)), shared)
  {
    hide FirstVals;
    forall k | k in store ensures WriteAll(bus, vs)[k].fin == shared[k] {
      assert AllWrite(vs, k, shared[k]);
      if !Writes(vs, k) {
        UnwrittenAgrees(keys, sv, store, shared, vs, k);
      }
      AgreedResolves(bus, vs, k, shared[k]);
    }
  }

  /** A signal that nobody has changed has its old value. */
  lemma {:induction false} UnwrittenAgrees(keys: seq<set<Key>>, sv: seq<Signals>, store: map<Key, real>,
                                           shared: map<Key, real>,
                                           vs: seq<Vector>, k: Key)
    requires Agreed(keys, sv, store, shared) && Encodes(vs, sv) && k in store && !Writes(vs, k)
    ensures shared[k] == store[k]
  {
    if LastHolder(keys, |keys|, k).Some? {
      var h := FirstHolder(keys, |keys|, k);
      assert k in sv[h];
    }
  }

  /** The models after the Start. */
  function Delivered(sv: seq<Signals>, d: Delta): (r: seq<Signals>)
    ensures |r| == |sv| && forall h | 0 <= h < |sv| :: r[h].Keys == sv[h].Keys
  {
    seq(|sv|, h requires 0 <= h < |sv| =>
      map k | k in sv[h] :: var x := Incoming(Sv(sv[h][k].val, sv[h][k].fin, []), d, k); Scalar(x.val, x.fin))
  }

  /** And the next cycle starts from the shared store: the first model that holds a signal sees it. */
  lemma {:induction false} CycleKeeps(keys: seq<set<Key>>, sv: seq<Signals>, store: map<Key, real>,
                                      shared: map<Key, real>, bus: map<Key, Sv>, vs: seq<Vector>)
    requires Agreed(keys, sv, store, shared) && Has(bus, store) && Encodes(vs, sv)
    ensures FirstVals(keys, Delivered(sv, DeltaOf(WriteAll(bus, vs))), shared)
  {
    CycleResolves(keys, sv, store, shared, bus, vs);
    hide WriteAll, Encodes;
    var sent := WriteAll(bus, vs);
    var r: seq<Signals> := Delivered(sv, DeltaOf(sent));
    forall h, k | 0 <= h < |r| && k in r[h] && LastHolder(keys, h, k).None? ensures r[h][k].val == shared[k] {
      assert sv[h][k].val == store[k];
      assert Resolve(sent)[k].val == sent[k].fin == shared[k];
      WrittenVal(bus, vs, k);
    }
  }

  lemma {:induction false} WrittenVal(sv: map<Key, Sv>, vs: seq<Vector>, k: Key)
    requires k in sv
    ensures WriteAll(sv, vs)[k].val == sv[k].val
  {
    WrittenBins(sv, vs, k);
  }

  /**
   * After the Start a model has the bus's value of a signal exactly when that value is a new one, or the model has seen
   * the old one: where the cycle ends with the old value nothing is sent, and a value seen in between stays.
   */
  lemma {:induction false} StaleExactly(keys: seq<set<Key>>, chans: seq<set<nat>>, store: map<Key, real>,
                                        f: StepFunction, bus: map<Key, Sv>, vs: seq<Vector>, h: nat, k: Key)
    requires (forall i | 0 <= i < |keys| :: keys[i] <= store.Keys) && OnChannels(keys, chans)
    requires Has(bus, store) && Sent(vs, Ran(store, f, keys), chans) && h < |keys| && k in keys[h]
    ensures var sent, seen := WriteAll(bus, vs), Shared(store, f, keys, h)[k];
            && Resolve(sent)[k].val == Shared(store, f, keys, |keys|)[k]
            && (Delivered(Ran(store, f, keys), DeltaOf(sent))[h][k].val == Resolve(sent)[k].val
                <==> Resolve(sent)[k].val != store[k] || seen == store[k])
  {
    var sv, shared := Ran(store, f, keys), Shared(store, f, keys, |keys|);
    RanAgrees(keys, store, f);
    SentEncodes(vs, sv, chans);
    CycleResolves(keys, sv, store, shared, bus, vs);
    WrittenVal(bus, vs, k);
    hide WriteAll, Encodes, Shared, Sent, Agreed;
    var sent := WriteAll(bus, vs);
    assert Resolve(sent)[k].val == sent[k].fin == shared[k];
  }

  ghost predicate OnChannels(keys: seq<set<Key>>, chans: seq<set<nat>>) {
    |chans| == |keys| && forall h, k | 0 <= h < |keys| && k in keys[h] :: k.ch in chans[h]
  }

  /** The first of two models writes 5, the second reads 5 and writes 0 back. */
  function BackAndForth(k: Key): StepFunction {
    (i: nat, vals: map<Key, real>) => map[k := if i == 0 then 5.0 else 0.0]
  }

  lemma {:induction false} BackAndForthShared(k: Key)
    ensures var store, keys := map[k := 0.0], [{k}, {k}];
            Shared(store, BackAndForth(k), keys, 1)[k] == 5.0 && Shared(store, BackAndForth(k), keys, 2)[k] == 0.0
  {
    assert Shared(map[k := 0.0], BackAndForth(k), [{k}, {k}], 0) == map[k := 0.0];
  }

  lemma {:induction false} SentByTwo(sv: seq<Signals>, ch: nat)
    requires |sv| == 2
    ensures Sent([VectorOf(0, ch, sv[0]), VectorOf(1, ch, sv[1])], sv, [{ch}, {ch}])
  {
    hide VectorOf;
  }

  /** After the Start the second model has 5 and the bus 0. */
  lemma {:induction false} LaterHolderStale(k: Key) returns (bus: map<Key, Sv>, vs: seq<Vector>)
    ensures var store, sv := map[k := 0.0], Ran(map[k := 0.0], BackAndForth(k), [{k}, {k}]);
            && Has(bus, store) && Sent(vs, sv, [{k.ch}, {k.ch}])
            && Delivered(sv, DeltaOf(WriteAll(bus, vs)))[1][k].val == 5.0 && Resolve(WriteAll(bus, vs))[k].val == 0.0
  {
    var keys, store, f := [{k}, {k}], map[k := 0.0], BackAndForth(k);
    var sv: seq<Signals> := Ran(store, f, keys);
    bus := map[k := Sv(0.0, 0.0, [])];
    vs := [VectorOf(0, k.ch, sv[0]), VectorOf(1, k.ch, sv[1])];
    hide VectorOf, WriteAll, Sent, Shared, BackAndForth;
    BackAndForthShared(k);
    SentByTwo(sv, k.ch);
    StaleExactly(keys, [{k.ch}, {k.ch}], store, f, bus, vs, 1, k);
    WrittenVal(bus, vs, k);
  }

  // ---- Whole runs ----

  /** The shared store after one step of all models after another. */
  function StoreAfter(store: map<Key, real>, keys: seq<set<Key>>, fs: seq<StepFunction>): (r: map<Key, real>)
    requires forall i | 0 <= i < |keys| :: keys[i] <= store.Keys
    ensures r.Keys == store.Keys
  {
    if fs == [] then store else Shared(StoreAfter(store, keys, fs[..|fs| - 1]), fs[|fs| - 1], keys, |keys|)
  }

  /** One cycle: the stack steps, the bus takes the vectors in some order, and the Start is delivered. */
  ghost predicate CycleStep(keys: seq<set<Key>>, chans: seq<set<nat>>, f: StepFunction, sv: seq<Signals>,
                            bus: map<Key, Sv>, next: seq<Signals>, nextBus: map<Key, Sv>)
    requires HasKeys(sv, keys) && |chans| == |keys|
  {
    var ran := Ran(StoreOf(keys, sv), f, keys);
    exists vs :: Sent(vs, ran, chans)
                 && next == Delivered(ran, DeltaOf(WriteAll(bus, vs))) && nextBus == Resolve(WriteAll(bus, vs))
  }

  ghost predicate Run(keys: seq<set<Key>>, chans: seq<set<nat>>, fs: seq<StepFunction>, svs: seq<seq<Signals>>,
                      buses: seq<map<Key, Sv>>)
  {
    && OnChannels(keys, chans) && |svs| == |buses| == |fs| + 1
    && (forall n | 0 <= n <= |fs| :: HasKeys(svs[n], keys))
    && forall n | 0 <= n < |fs| :: CycleStep(keys, chans, fs[n], svs[n], buses[n], svs[n + 1], buses[n + 1])
  }

  lemma {:induction false} OneCycle(keys: seq<set<Key>>, chans: seq<set<nat>>, f: StepFunction, sv: seq<Signals>,
                                    bus: map<Key, Sv>, next: seq<Signals>, nextBus: map<Key, Sv>)
    requires OnChannels(keys, chans) && HasKeys(sv, keys) && HasKeys(next, keys) && Has(bus, StoreOf(keys, sv))
    requires CycleStep(keys, chans, f, sv, bus, next, nextBus)
    ensures StoreOf(keys, next) == Shared(StoreOf(keys, sv), f, keys, |keys|) && Has(nextBus, StoreOf(keys, next))
  {
    hide StoreOf, Shared, Sent, Encodes, Delivered, Resolve, WriteAll, FirstVals, Agreed;
    var store := StoreOf(keys, sv);
    var ran, shared := Ran(store, f, keys), Shared(store, f, keys, |keys|);
    var vs :| Sent(vs, ran, chans)
              && next == Delivered(ran, DeltaOf(WriteAll(bus, vs))) && nextBus == Resolve(WriteAll(bus, vs));
    RanAgrees(keys, store, f);
    SentEncodes(vs, ran, chans);
    CycleResolves(keys, ran, store, shared, bus, vs);
    CycleKeeps(keys, ran, store, shared, bus, vs);
    FirstValsOnly(keys, next, shared);
  }

  /** Over any run the bus and the first holders have the values of the shared store, stepped as often. */
  lemma {:induction false} RunIsShared(keys: seq<set<Key>>, chans: seq<set<nat>>, fs: seq<StepFunction>,
                                       svs: seq<seq<Signals>>, buses: seq<map<Key, Sv>>, n: nat)
    requires Run(keys, chans, fs, svs, buses) && n <= |fs| && Has(buses[0], StoreOf(keys, svs[0]))
    ensures StoreOf(keys, svs[n]) == StoreAfter(StoreOf(keys, svs[0]), keys, fs[..n])
    ensures Has(buses[n], StoreOf(keys, svs[n]))
  {
    hide StoreOf, Shared, CycleStep, Has, OnChannels, HasKeys;
    if n == 0 {
      assert fs[..0] == [];
    } else {
      RunIsShared(keys, chans, fs, svs, buses, n - 1);
      OneCycle(keys, chans, fs[n - 1], svs[n - 1], buses[n - 1], svs[n], buses[n]);
      assert fs[..n][..n - 1] == fs[..n - 1];
    }
  }

  /** Nobody writes k in the first n steps of all models. */
  ghost predicate NeverWritten(store: map<Key, real>, keys: seq<set<Key>>, fs: seq<StepFunction>, n: nat, k: Key)
    requires n <= |fs| && forall i | 0 <= i < |keys| :: keys[i] <= store.Keys
  {
    forall t, i | 0 <= t < n && 0 <= i < |keys| :: !Outputs(StoreAfter(store, keys, fs[..t]), fs[t], keys, i, k)
  }

  lemma {:induction false} StoreKept(store: map<Key, real>, keys: seq<set<Key>>, fs: seq<StepFunction>, n: nat, k: Key)
    requires n <= |fs| && (forall i | 0 <= i < |keys| :: keys[i] <= store.Keys) && k in store
    requires NeverWritten(store, keys, fs, n, k)
    ensures StoreAfter(store, keys, fs[..n])[k] == store[k]
  {
    hide Shared, Outputs;
    if n > 0 {
      StoreKept(store, keys, fs, n - 1, k);
      assert fs[..n][..n - 1] == fs[..n - 1];
      UnwrittenKept(StoreAfter(store, keys, fs[..n - 1]), fs[n - 1], keys, 0, |keys|, k);
      SharedStart(StoreAfter(store, keys, fs[..n - 1]), fs[n - 1], keys);
    }
  }

  lemma {:induction false} SharedStart(store: map<Key, real>, f: StepFunction, keys: seq<set<Key>>)
    requires forall i | 0 <= i < |keys| :: keys[i] <= store.Keys
    ensures Shared(store, f, keys, 0) == store
  {}

  /** Over any run, a signal that no model writes keeps its value on the bus. */
  lemma {:induction false} RunKeepsUnwritten(keys: seq<set<Key>>, chans: seq<set<nat>>, fs: seq<StepFunction>,
                                             svs: seq<seq<Signals>>, buses: seq<map<Key, Sv>>, n: nat, k: Key)
    requires Run(keys, chans, fs, svs, buses) && n <= |fs| && Has(buses[0], StoreOf(keys, svs[0])) && k in AllKeys(keys)
    requires NeverWritten(StoreOf(keys, svs[0]), keys, fs, n, k)
    ensures k in buses[0] && k in buses[n] && buses[n][k].val == buses[0][k].val
  {
    hide StoreOf, CycleStep, NeverWritten, StoreAfter, AllKeys;
    RunIsShared(keys, chans, fs, svs, buses, n);
    StoreKept(StoreOf(keys, svs[0]), keys, fs, n, k);
  }
}
