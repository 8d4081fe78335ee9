/** A channel's signals, their index and the UID lookup cache. */
module ChannelIndex {
  import opened Binary
  import opened BusData
  import opened Checksum
  import opened Scaling

  type Name = seq<byte>

  /** A UID is 0 until it is assigned. */
  datatype SignalValue = SignalValue(name: Name, uid: nat, sv: Sv)

  /** The first of the first n signals that satisfies the scan: the linear search. */
  function ScanUid(values: seq<SignalValue>, n: nat, uid: nat): (r: Option<nat>)
    requires n <= |values|
    ensures r.Some? ==> r.value < n && values[r.value].uid == uid && forall i | 0 <= i < r.value :: values[i].uid != uid
    ensures r.None? ==> forall i | 0 <= i < n :: values[i].uid != uid
  {
    if n == 0 then None else
    var r := ScanUid(values, n - 1, uid);
    if r.Some? then r else if values[n - 1].uid == uid then Some(n - 1) else None
  }

  /** Names are distinct, and so are the UIDs that are assigned. */
  ghost predicate Distinct(values: seq<SignalValue>) {
    && (forall i, j | 0 <= i < j < |values| :: values[i].name != values[j].name)
    && (forall i, j | 0 <= i < j < |values| && values[i].uid != 0 :: values[i].uid != values[j].uid)
  }

  /** On the bus every signal has the hash of its name as UID. */
  ghost predicate Hashed(values: seq<SignalValue>) {
    forall i | 0 <= i < |values| :: values[i].uid == Fnv(values[i].name)
  }

  function NamesOf(values: seq<SignalValue>): set<Name> {
    set i | 0 <= i < |values| :: values[i].name
  }

  /** The hashes of these names are distinct, and none is 0. */
  ghost predicate CollisionFree(names: set<Name>) {
    && (forall x | x in names :: Fnv(x) != 0)
    && (forall x, y | x in names && y in names && x != y :: Fnv(x) != Fnv(y))
  }

  /** The signals with a UID. */
  function SignalsOf(values: seq<SignalValue>): (m: map<nat, Sv>)
    ensures 0 !in m
  {
    if values == [] then map[] else
    var n := |values| - 1;
    var m := SignalsOf(values[..n]);
    if values[n].uid == 0 then m else m[values[n].uid := values[n].sv]
  }

  lemma {:induction false} SignalsAt(values: seq<SignalValue>, uid: nat)
    requires Distinct(values)
    ensures uid in SignalsOf(values) <==> uid != 0 && exists i :: 0 <= i < |values| && values[i].uid == uid
    ensures forall i | 0 <= i < |values| && values[i].uid == uid && uid != 0 ::
              uid in SignalsOf(values) && SignalsOf(values)[uid] == values[i].sv
  {
    if values != [] {
      var n := |values| - 1;
      SignalsAt(values[..n], uid);
      assert forall i | 0 <= i < n :: values[..n][i] == values[i];
      if uid in SignalsOf(values[..n]) {
        var i :| 0 <= i < n && values[..n][i].uid == uid;
        assert values[i].uid == uid;
      }
    }
  }

  /** Changing one signal changes it in the map. */
  lemma {:induction false} SignalsUpdate(values: seq<SignalValue>, i: nat, sv: Sv)
    requires Distinct(values) && i < |values| && values[i].uid != 0
    ensures SignalsOf(values[i := values[i].(sv := sv)]) == SignalsOf(values)[values[i].uid := sv]
  {
    var r := values[i := values[i].(sv := sv)];
    var m := SignalsOf(values)[values[i].uid := sv];
    forall uid ensures uid in SignalsOf(r) <==> uid in m
               ensures uid in m ==> SignalsOf(r)[uid] == m[uid]
    {
      SignalsAt(values, uid);
      SignalsAt(r, uid);
      assert forall j | 0 <= j < |values| :: r[j].uid == values[j].uid;
      if uid in m {
        SignalsAt(values, values[i].uid);
        var j :| 0 <= j < |values| && values[j].uid == uid;
        assert r[j].uid == uid;
      }
    }
  }

  class Channel {
    var values: seq<SignalValue>
    var indexed: bool
    var lookup: map<nat, nat>

    /** A cached entry is the signal that has the UID, so a cached lookup finds what the linear search finds. */
    ghost predicate Valid()
      reads this
    {
      && Distinct(values)
      && (!indexed ==> lookup == map[])
      && (forall uid | uid in lookup :: uid != 0 && lookup[uid] < |values| && values[lookup[uid]].uid == uid)
    }

    ghost function Signals(): map<nat, Sv>
      reads this
    {
      SignalsOf(values)
    }

    constructor ()
      ensures Valid() && values == [] && !indexed
    {
      values, indexed, lookup := [], false, map[];
    }

    method InvalidateIndex()
      requires Valid()
      modifies this`indexed, this`lookup
      ensures Valid() && !indexed
    {
      if indexed {
        indexed := false;
        lookup := map[];
      }
    }

    method GenerateIndex()
      requires Valid()
      modifies this`indexed, this`lookup
      ensures Valid() && indexed
      ensures forall i | 0 <= i < |values| && values[i].uid != 0 :: values[i].uid in lookup
    {
      indexed, lookup := true, map[];
      for i := 0 to |values|
        invariant Valid() && indexed
        invariant forall j | 0 <= j < i && values[j].uid != 0 :: values[j].uid in lookup
      {
        if values[i].uid != 0 {
          lookup := lookup[values[i].uid := i];
        }
      }
    }

    method RefreshIndex()
      requires Valid()
      modifies this`indexed, this`lookup
      ensures Valid() && indexed
    {
      if !indexed {
        GenerateIndex();
      }
    }

    /** With an index, the signal with the UID: whatever is cached, exactly what the linear search finds. */
    method FindByUid(uid: nat) returns (r: Option<nat>)
      requires Valid()
      modifies this`lookup
      ensures Valid()
      ensures indexed ==> r == if uid == 0 then None else ScanUid(values, |values|, uid)
      ensures !indexed ==> r == None
    {
      if uid == 0 {
        return None;
      }
      if uid in lookup {
        return Some(lookup[uid]);
      }
      if indexed {
        for i := 0 to |values|
          invariant Valid() && ScanUid(values, i, uid).None?
        {
          if values[i].uid == uid {
            lookup := lookup[uid := i];
            ScanStops(values, i, uid);
            return Some(i);
          }
        }
      }
      r := None;
    }

    /** The signal with the name; a missing one is added and invalidates the index. */
    method GetSignalValue(name: Name) returns (i: nat)
      requires Valid()
      modifies this
      ensures Valid() && i < |values| && values[i].name == name
      ensures if exists j :: 0 <= j < |old(values)| && old(values)[j].name == name
              then values == old(values) && indexed == old(indexed)
              else values == old(values) + [SignalValue(name, 0, Sv(0.0, 0.0, []))] && i == |old(values)| && !indexed
      ensures Signals() == old(Signals())
    {
      i := 0;
      while i < |values|
        invariant i <= |values| && forall j | 0 <= j < i :: values[j].name != name
      {
        if values[i].name == name {
          return;
        }
        i := i + 1;
      }
      ghost var was := values;
      values := values + [SignalValue(name, 0, Sv(0.0, 0.0, []))];
      assert values[..|was|] == was;
      InvalidateIndex();
    }

    /** Assigns a UID that no other signal has. */
    method SetUid(i: nat, uid: nat)
      requires Valid() && i < |values| && uid != 0
      requires forall j | 0 <= j < |values| && j != i :: values[j].uid != uid
      requires values[i].uid == 0 || values[i].uid == uid
      modifies this`values
      ensures Valid() && values == old(values)[i := old(values)[i].(uid := uid)]
      ensures Signals() == old(Signals())[uid := values[i].sv]
    {
      ghost var was := values;
      values := values[i := values[i].(uid := uid)];
      UidAssigned(was, i, uid);
    }

    /** The UID of a signal of the bus, which is added if it is missing. */
    method Lookup(name: Name) returns (uid: nat)
      requires Valid() && Hashed(values) && CollisionFree(NamesOf(values) + {name})
      modifies this
      ensures Valid() && Hashed(values) && uid == Fnv(name) && NamesOf(values) == old(NamesOf(values)) + {name}
      ensures Signals() == if uid in old(Signals()) then old(Signals()) else old(Signals())[uid := Sv(0.0, 0.0, [])]
    {
      hide Fnv, SignalsOf;
      ghost var was := values;
      var i := GetSignalValue(name);
      SignalsAt(was, Fnv(name));
      if values[i].uid == 0 {
        assert forall j | 0 <= j < |was| :: values[j] == was[j] && was[j].name in NamesOf(was);
        SetUid(i, Fnv(name));
        assert forall j | 0 <= j < |was| :: values[j] == was[j];
        assert forall j | 0 <= j < |values| :: values[j].name == if j < |was| then was[j].name else name;
      } else {
        assert was[i].name in NamesOf(was);
      }
      uid := values[i].uid;
    }

    /** An entry of a SignalIndex reply: the named signal, if there is one, takes the UID, and is cached. */
    method TakeUid(name: Name, uid: nat)
      requires Valid() && indexed
      requires forall j | 0 <= j < |values| && values[j].name != name :: values[j].uid != uid
      requires forall j | 0 <= j < |values| && values[j].name == name :: values[j].uid == 0 || values[j].uid == uid
      modifies this`values, this`lookup
      ensures Valid() && |values| == |old(values)|
      ensures forall j | 0 <= j < |values| ::
                values[j] == if uid != 0 && old(values)[j].name ==
                    name then old(values)[j].(uid := uid) else old(values)[j]
      ensures uid != 0 && (exists j :: 0 <= j < |values| && values[j].name == name) ==> uid in lookup
    {
      if uid == 0 {
        return;
      }
      for i := 0 to |values|
        invariant Valid() && indexed && values == old(values) && lookup == old(lookup)
        invariant forall j | 0 <= j < i :: values[j].name != name
      {
        if values[i].name == name {
          SetUid(i, uid);
          lookup := lookup[uid := i];
          return;
        }
      }
    }

    method SetSv(i: nat, sv: Sv)
      requires Valid() && i < |values|
      modifies this`values
      ensures Valid() && values == old(values)[i := old(values)[i].(sv := sv)]
      ensures Signals() == if values[i].uid == 0 then old(Signals()) else old(Signals())[values[i].uid := sv]
    {
      if values[i].uid == 0 {
        SignalsSame(values, i, sv);
      } else {
        SignalsUpdate(values, i, sv);
      }
      values := values[i := values[i].(sv := sv)];
    }

    /** Appends to the buffer of the signal with the UID; an unknown UID is ignored. */
    method AppendBin(uid: nat, data: seq<byte>)
      requires Valid() && indexed && uid != 0
      modifies this`values, this`lookup
      ensures Valid() && Signals() == Appended(old(Signals()), uid, data)
    {
      var found := FindByUid(uid);
      SignalsAt(values, uid);
      if found.Some? {
        var sv := values[found.value].sv;
        SetSv(found.value, sv.(bin := sv.bin + data));
      }
    }

    /** The bus takes a written value as final_val. */
    method SetFin(uid: nat, value: real)
      requires Valid() && indexed && uid != 0
      modifies this`values, this`lookup
      ensures Valid() && Signals() == FinSet(old(Signals()), uid, value)
    {
      var found := FindByUid(uid);
      SignalsAt(values, uid);
      if found.Some? {
        SetSv(found.value, values[found.value].sv.(fin := value));
      }
    }

    /** A model takes a delivered value as val and final_val. */
    method SetVal(uid: nat, value: real)
      requires Valid() && indexed && uid != 0
      modifies this`values, this`lookup
      ensures Valid() && Signals() == ValSet(old(Signals()), uid, value)
    {
      var found := FindByUid(uid);
      SignalsAt(values, uid);
      if found.Some? {
        SetSv(found.value, values[found.value].sv.(val := value, fin := value));
      }
    }

    method AppendBins(bins: seq<(nat, seq<byte>)>)
      requires Valid() && indexed && Uids(bins)
      modifies this`values, this`lookup
      ensures Valid() && Signals() == AppendedAll(old(Signals()), bins)
    {
      for i := 0 to |bins|
        invariant Valid() && Signals() == AppendedAll(old(Signals()), bins[..i])
      {
        assert bins[..i + 1][..i] == bins[..i];
        if |bins[i].1| > 0 {
          AppendBin(bins[i].0, bins[i].1);
        } else {
          AppendNothing(Signals(), bins[i].0);
        }
      }
      assert bins[..|bins|] == bins;
    }

    method SetFins(scalars: seq<(nat, real)>)
      requires Valid() && indexed && Uids(scalars)
      modifies this`values, this`lookup
      ensures Valid() && Signals() == FinSetAll(old(Signals()), scalars)
    {
      for i := 0 to |scalars|
        invariant Valid() && Signals() == FinSetAll(old(Signals()), scalars[..i])
      {
        assert scalars[..i + 1][..i] == scalars[..i];
        SetFin(scalars[i].0, scalars[i].1);
      }
      assert scalars[..|scalars|] == scalars;
    }

    method SetVals(scalars: seq<(nat, real)>)
      requires Valid() && indexed && Uids(scalars)
      modifies this`values, this`lookup
      ensures Valid() && Signals() == ValSetAll(old(Signals()), scalars)
    {
      for i := 0 to |scalars|
        invariant Valid() && Signals() == ValSetAll(old(Signals()), scalars[..i])
      {
        assert scalars[..i + 1][..i] == scalars[..i];
        SetVal(scalars[i].0, scalars[i].1);
      }
      assert scalars[..|scalars|] == scalars;
    }

    /** The changed scalars and the non-empty binaries of the signals with a UID. */
    method Encode() returns (scalars: seq<(nat, real)>, bins: seq<(nat, seq<byte>)>)
      requires Valid()
      modifies this`indexed, this`lookup
      ensures Valid() && indexed && Uids(scalars) && Uids(bins)
      ensures MapOf(scalars) == Outgoing(0, 0, Signals()).scalars && MapOf(bins) == Outgoing(0, 0, Signals()).bins
    {
      hide Encoding;
      RefreshIndex();
      scalars, bins := [], [];
      EncodedNone();
      for i := 0 to |values|
        invariant Valid() && indexed && Encoding(values, i, scalars, bins)
      {
        var x := values[i];
        EncodingNext(values, i, scalars, bins);
        if x.sv.val != x.sv.fin && x.uid != 0 {
          scalars := scalars + [(x.uid, x.sv.fin)];
        }
        if |x.sv.bin| > 0 && x.uid != 0 {
          bins := bins + [(x.uid, x.sv.bin)];
        }
      }
      EncodedAll(values, scalars, bins);
    }

    /** val takes final_val and the buffer is emptied, for every signal. */
    method Resolve()
      requires Valid()
      modifies this`values
      ensures Valid() && Signals() == ResolvedSignals(old(Signals()))
    {
      ghost var was := values;
      for i := 0 to |values|
        invariant Valid() && Same(was, values, i, Settled)
      {
        SetSv(i, Sv(values[i].sv.fin, values[i].sv.fin, []));
      }
      SameSignals(was, values, Settled);
    }

    /** Encoding consumes the binaries. */
    method ClearBins()
      requires Valid()
      modifies this`values
      ensures Valid() && Signals() == map u | u in old(Signals()) :: old(Signals())[u].(bin := [])
    {
      ghost var was := values;
      for i := 0 to |values|
        invariant Valid() && Same(was, values, i, Emptied)
      {
        SetSv(i, values[i].sv.(bin := []));
      }
      SameSignals(was, values, Emptied);
    }
  }

  // ---- What the updates do to the map ----

  function Appended(m: map<nat, Sv>, uid: nat, data: seq<byte>): map<nat, Sv> {
    if uid in m then m[uid := m[uid].(bin := m[uid].bin + data)] else m
  }

  function FinSet(m: map<nat, Sv>, uid: nat, value: real): map<nat, Sv> {
    if uid in m then m[uid := m[uid].(fin := value)] else m
  }

  function ValSet(m: map<nat, Sv>, uid: nat, value: real): map<nat, Sv> {
    if uid in m then m[uid := m[uid].(val := value, fin := value)] else m
  }

  function AppendedAll(m: map<nat, Sv>, bins: seq<(nat, seq<byte>)>): (r: map<nat, Sv>)
    ensures r.Keys == m.Keys
  {
    if bins == [] then m else Appended(AppendedAll(m, bins[..|bins| - 1]), bins[|bins| - 1].0, bins[|bins| - 1].1)
  }

  function FinSetAll(m: map<nat, Sv>, scalars: seq<(nat, real)>): (r: map<nat, Sv>)
    ensures r.Keys == m.Keys
  {
    if scalars == [] then m else FinSet(FinSetAll(m, scalars[..|scalars| - 1]), scalars[|scalars| - 1].0,
        scalars[|scalars| - 1].1)
  }

  function ValSetAll(m: map<nat, Sv>, scalars: seq<(nat, real)>): (r: map<nat, Sv>)
    ensures r.Keys == m.Keys
  {
    if scalars == [] then m else ValSet(ValSetAll(m, scalars[..|scalars| - 1]), scalars[|scalars| - 1].0,
        scalars[|scalars| - 1].1)
  }

  function Settled(x: Sv): Sv {
    Sv(x.fin, x.fin, [])
  }

  function Emptied(x: Sv): Sv {
    x.(bin := [])
  }

  function ResolvedSignals(m: map<nat, Sv>): map<nat, Sv> {
    map u | u in m :: Sv(m[u].fin, m[u].fin, [])
  }

  lemma {:induction false} AppendNothing(m: map<nat, Sv>, uid: nat)
    ensures Appended(m, uid, []) == m
  {
    if uid in m {
      assert m[uid].bin + [] == m[uid].bin;
    }
  }

  // ---- Lists of pairs ----

  function MapOf<T>(s: seq<(nat, T)>): map<nat, T> {
    if s == [] then map[] else MapOf(s[..|s| - 1])[s[|s| - 1].0 := s[|s| - 1].1]
  }

  /** UIDs are assigned, and listed once. */
  ghost predicate Uids<T>(s: seq<(nat, T)>) {
    (forall i | 0 <= i < |s| :: s[i].0 != 0) && forall i, j | 0 <= i < j < |s| :: s[i].0 != s[j].0
  }

  lemma {:induction false} MapOfKeys<T>(s: seq<(nat, T)>, u: nat)
    ensures u in MapOf(s) <==> exists i :: 0 <= i < |s| && s[i].0 == u
  {
    if s != [] {
      var n := |s| - 1;
      MapOfKeys(s[..n], u);
      if u in MapOf(s[..n]) {
        var i :| 0 <= i < n && s[..n][i].0 == u;
        assert s[i].0 == u;
      }
      if i :| 0 <= i < |s| && s[i].0 == u && i < n {
        assert s[..n][i].0 == u;
      }
    }
  }

  lemma {:induction false} AppendedMap(m: map<nat, Sv>, bins: seq<(nat, seq<byte>)>, u: nat)
    requires Uids(bins) && u in m
    ensures AppendedAll(m, bins)[u] == if u in MapOf(bins) then m[u].(bin := m[u].bin + MapOf(bins)[u]) else m[u]
  {
    if bins != [] {
      var n := |bins| - 1;
      AppendedMap(m, bins[..n], u);
      MapOfKeys(bins[..n], bins[n].0);
    }
  }

  lemma {:induction false} FinSetMap(m: map<nat, Sv>, scalars: seq<(nat, real)>, u: nat)
    requires u in m
    ensures FinSetAll(m, scalars)[u] == if u in MapOf(scalars) then m[u].(fin := MapOf(scalars)[u]) else m[u]
  {
    if scalars != [] {
      FinSetMap(m, scalars[..|scalars| - 1], u);
    }
  }

  lemma {:induction false} ValSetMap(m: map<nat, Sv>, scalars: seq<(nat, real)>, u: nat)
    requires u in m
    ensures ValSetAll(m, scalars)[u] ==
            if u in MapOf(scalars) then m[u].(val := MapOf(scalars)[u], fin := MapOf(scalars)[u]) else m[u]
  {
    if scalars != [] {
      ValSetMap(m, scalars[..|scalars| - 1], u);
    }
  }

  // ---- Encoding, signal by signal ----

  /** The list is the map, each UID once. */
  ghost predicate Lists<T>(s: seq<(nat, T)>, m: map<nat, T>) {
    MapOf(s) == m && Uids(s)
  }

  lemma {:induction false} ListsNext<T>(s: seq<(nat, T)>, m: map<nat, T>, u: nat, t: T)
    requires Lists(s, m) && u != 0 && u !in m
    ensures Lists(s + [(u, t)], m[u := t])
  {
    assert (s + [(u, t)])[..|s|] == s;
    forall i | 0 <= i < |s| ensures s[i].0 != u {
      MapOfKeys(s, u);
    }
  }

  lemma {:induction false} OutgoingNext(m: map<nat, Sv>, u: nat, x: Sv)
    requires u !in m
    ensures var a, b := Outgoing(0, 0, m), Outgoing(0, 0, m[u := x]);
            && b.scalars == (if x.val != x.fin then a.scalars[u := x.fin] else a.scalars) && u !in a.scalars
            && b.bins == (if x.bin != [] then a.bins[u := x.bin] else a.bins) && u !in a.bins
  {}

  /** The lists hold what is to be sent of the first i signals. */
  ghost predicate Encoding(values: seq<SignalValue>, i: nat, scalars: seq<(nat, real)>, bins: seq<(nat, seq<byte>)>)
    requires i <= |values|
  {
    var out := Outgoing(0, 0, SignalsOf(values[..i]));
    Lists(scalars, out.scalars) && Lists(bins, out.bins)
  }

  lemma {:induction false} EncodedNone()
    ensures Encoding([], 0, [], [])
    ensures forall values: seq<SignalValue> :: Encoding(values, 0, [], [])
  {
    var none: seq<(nat, real)> := [];
    assert MapOf(none) == Outgoing(0, 0, SignalsOf([])).scalars;
    forall values: seq<SignalValue> ensures Encoding(values, 0, [], []) {
      assert values[..0] == [];
    }
  }

  lemma {:induction false} EncodedAll(values: seq<SignalValue>, scalars: seq<(nat, real)>, bins: seq<(nat, seq<byte>)>)
    requires Encoding(values, |values|, scalars, bins)
    ensures var out := Outgoing(0, 0, SignalsOf(values)); Lists(scalars, out.scalars) && Lists(bins, out.bins)
  {
    assert values[..|values|] == values;
  }

  lemma {:induction false} EncodingNext(values: seq<SignalValue>, i: nat, scalars: seq<(nat, real)>,
                                        bins: seq<(nat, seq<byte>)>)
    requires Distinct(values) && i < |values| && Encoding(values, i, scalars, bins)
    ensures var x := values[i];
            Encoding(values, i + 1,
                     if x.sv.val != x.sv.fin && x.uid != 0 then scalars + [(x.uid, x.sv.fin)] else scalars,
                     if |x.sv.bin| > 0 && x.uid != 0 then bins + [(x.uid, x.sv.bin)] else bins)
  {
    hide Lists, Outgoing;
    var x := values[i];
    assert values[..i + 1][..i] == values[..i];
    SignalsAt(values[..i], x.uid);
    if x.uid != 0 {
      var m := SignalsOf(values[..i]);
      var a := Outgoing(0, 0, m);
      OutgoingNext(m, x.uid, x.sv);
      if x.sv.val != x.sv.fin {
        ListsNext(scalars, a.scalars, x.uid, x.sv.fin);
      }
      if |x.sv.bin| > 0 {
        ListsNext(bins, a.bins, x.uid, x.sv.bin);
      }
    }
  }

  // ---- Updating every signal ----

  /** The first i signals are updated by f, the others are as they were. */
  ghost predicate Same(was: seq<SignalValue>, now: seq<SignalValue>, i: nat, f: Sv -> Sv) {
    |now| == |was| && forall j | 0 <= j < |was| :: now[j] == if j < i then was[j].(sv := f(was[j].sv)) else was[j]
  }

  lemma {:induction false} SameSignals(was: seq<SignalValue>, now: seq<SignalValue>, f: Sv -> Sv)
    requires Same(was, now, |was|, f)
    ensures SignalsOf(now) == map u | u in SignalsOf(was) :: f(SignalsOf(was)[u])
  {
    if was != [] {
      var n := |was| - 1;
      SameSignals(was[..n], now[..n], f);
    }
  }

  lemma {:induction false} SignalsSame(values: seq<SignalValue>, i: nat, sv: Sv)
    requires i < |values| && values[i].uid == 0
    ensures Distinct(values) ==> Distinct(values[i := values[i].(sv := sv)])
    ensures SignalsOf(values[i := values[i].(sv := sv)]) == SignalsOf(values)
  {
    var n := |values| - 1;
    var r := values[i := values[i].(sv := sv)];
    if i < n {
      SignalsSame(values[..n], i, sv);
      assert r[..n] == values[..n][i := values[i].(sv := sv)];
    } else {
      assert r[..n] == values[..n];
    }
  }

  lemma {:induction false} ScanStops(values: seq<SignalValue>, i: nat, uid: nat)
    requires i < |values| && values[i].uid == uid && ScanUid(values, i, uid).None?
    ensures ScanUid(values, |values|, uid) == Some(i)
  {
    var r := ScanUid(values, |values|, uid);
    assert values[i].uid == uid;
  }

  lemma {:induction false} UidAssigned(values: seq<SignalValue>, i: nat, uid: nat)
    requires Distinct(values) && i < |values| && uid != 0
    requires forall j | 0 <= j < |values| && j != i :: values[j].uid != uid
    requires values[i].uid == 0 || values[i].uid == uid
    ensures var r := values[i := values[i].(uid := uid)];
            Distinct(r) && SignalsOf(r) == SignalsOf(values)[uid := values[i].sv]
  {
    var r := values[i := values[i].(uid := uid)];
    var m := SignalsOf(values)[uid := values[i].sv];
    forall u ensures u in SignalsOf(r) <==> u in m
             ensures u in m ==> SignalsOf(r)[u] == m[u]
    {
      SignalsAt(values, u);
      SignalsAt(r, u);
      assert r[i].uid == uid;
      assert forall j | 0 <= j < |values| && j != i :: r[j] == values[j];
    }
  }
}
