/** Marshalling between a model function's channel and the adapter. */
module Controller {
  import opened Binary
  import opened BusData

  /** The channel of a model function: the model's values and buffers beside the adapter's signals. */
  class FunctionChannel {
    const hasDouble: bool
    const hasBinary: bool
    var signals: seq<Sv>
    var double: seq<real>
    var binary: seq<seq<byte>>
    var reset: seq<bool>

    ghost predicate Valid()
      reads this
    {
      |double| == |binary| == |reset| == |signals|
    }

    /** Signal i, on both sides. */
    ghost function CellAt(i: nat): Cell
      requires Valid() && i < |signals|
      reads this
    {
      Cell(signals[i].val, signals[i].fin, signals[i].bin, binary[i], reset[i])
    }

    constructor (svs: seq<Sv>, doubles: bool, binaries: bool)
      ensures Valid() && signals == svs && hasDouble == doubles && hasBinary == binaries
      ensures forall i | 0 <= i < |svs| :: double[i] == 0.0 && binary[i] == [] && !reset[i]
    {
      signals, hasDouble, hasBinary := svs, doubles, binaries;
      double, binary, reset := seq(|svs|, _ => 0.0), seq(|svs|, _ => []), seq(|svs|, _ => false);
    }

    /** To the model: values, and unless scalarOnly the binaries, which are consumed. */
    method AdapterToModel(scalarOnly: bool)
      requires Valid()
      modifies this
      ensures Valid() && |signals| == |old(signals)|
      ensures forall i | 0 <= i < |signals| ::
                double[i] == if hasDouble then old(signals)[i].val else old(double)[i]
      ensures forall i | 0 <= i < |signals| ::
                CellAt(i) == if hasBinary && !scalarOnly then MarshalledIn(old(CellAt(i))) else old(CellAt(i))
    {
      ghost var n := |signals|;
      if hasDouble {
        for i := 0 to |signals|
          invariant Valid() && |signals| == n && signals == old(signals) && binary == old(binary) && reset == old(reset)
          invariant forall j | 0 <= j < n :: double[j] == if j < i then signals[j].val else old(double)[j]
        {
          double := double[i := signals[i].val];
        }
      }
      if scalarOnly || !hasBinary {
        return;
      }
      ghost var ds := double;
      for i := 0 to |signals|
        invariant Valid() && |signals| == n && double == ds
        invariant forall j | 0 <= j < n :: CellAt(j) == if j < i then MarshalledIn(old(CellAt(j))) else old(CellAt(j))
      {
        binary := binary[i := binary[i] + signals[i].bin];
        signals := signals[i := signals[i].(bin := [])];
        reset := reset[i := false];
      }
    }

    /** From the model: values become final_val; a buffer that was not reset is dropped,
        else appended to the adapter's. */
    method ModelToAdapter(scalars: bool, binaries: bool)
      requires Valid()
      modifies this
      ensures Valid() && |signals| == |old(signals)| && double == old(double)
      ensures forall i | 0 <= i < |signals| ::
                var x := if hasBinary && binaries then MarshalledOut(old(CellAt(i))) else old(CellAt(i));
                CellAt(i) == if hasDouble && scalars then x.(fin := double[i]) else x
    {
      ghost var n := |signals|;
      if hasDouble && scalars {
        for i := 0 to |signals|
          invariant Valid() && |signals| == n && double == old(double) && binary == old(binary) && reset == old(reset)
          invariant forall j | 0 <= j < n ::
                      signals[j] == if j < i then old(signals)[j].(fin := double[j]) else old(signals)[j]
        {
          signals := signals[i := signals[i].(fin := double[i])];
        }
      }
      if !(hasBinary && binaries) {
        return;
      }
      ghost var was := signals;
      for i := 0 to |signals|
        invariant Valid() && |signals| == n && double == old(double) && reset == old(reset)
        invariant forall j | 0 <= j < n :: signals[j].val == was[j].val && signals[j].fin == was[j].fin
        invariant forall j | 0 <= j < n ::
                    CellAt(j).(fin := 0.0) == (if j < i then
                        MarshalledOut(old(CellAt(j))) else old(CellAt(j))).(fin := 0.0)
      {
        if !reset[i] {
          binary := binary[i := []];
        }
        signals := signals[i := signals[i].(bin := signals[i].bin + binary[i])];
        binary := binary[i := []];
      }
    }

    /** The model resets a binary signal. */
    method Reset(i: nat)
      requires Valid() && i < |signals|
      modifies this`binary, this`reset
      ensures Valid() && CellAt(i) == Operated(old(CellAt(i)), [BinOp.Reset])
      ensures forall j | 0 <= j < |signals| && j != i :: CellAt(j) == old(CellAt(j))
    {
      OneOp(CellAt(i), BinOp.Reset);
      binary, reset := binary[i := []], reset[i := true];
    }

    method Append(i: nat, data: seq<byte>)
      requires Valid() && i < |signals|
      modifies this`binary
      ensures Valid() && CellAt(i) == Operated(old(CellAt(i)), [BinOp.Append(data)])
      ensures forall j | 0 <= j < |signals| && j != i :: CellAt(j) == old(CellAt(j))
    {
      OneOp(CellAt(i), BinOp.Append(data));
      binary := binary[i := binary[i] + data];
    }
  }

  lemma {:induction false} OneOp(x: Cell, op: BinOp)
    ensures Operated(x, [op]) == match op
                                 case Reset => x.(buf := [], reset := true)
                                 case Append(data) => x.(buf := x.buf + data)
  {
    assert [op][..0] == [];
  }
}
