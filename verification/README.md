# Dafny model of the PDU network, the SimBus and sub-stepping

A verification project for three parts of the Model C library.

**PDU networks** (`Binary` to `Delivery`, `Flexray`, `PduNet`). Signals are scaled to raw integers, packed at bit
positions, checked for changes, put into containers, scheduled by ticks, and taken apart again by a receiver.
`Network` specifies one Tx and one Rx pass as functions on the state; `PduNet` runs the same passes in place, with
payload arrays, vectors and flags, and is proved to refine `Network`; `PduRuns`, `Transport` and `Delivery` prove what
follows for whole runs and from one network to another.

**The SimBus** (`BusData` to `Conservation`, `ChannelIndex`, `SimBus`, `Adapter`, `Controller`, `Loopback`,
`Sequential`). `LockStep` is the protocol as a state machine: processes that register, index, send Ready, wait for
Start, time out, leave or crash, reliable FIFO queues in between, and the bus. `Barrier` proves what every interleaving
keeps, `Acks`, `Leaving` and `Progress` how connecting, leaving and a cycle end; `Replication`, `Scalars` and
`Conservation` follow replicas, scalar writes and binaries through it. `ChannelIndex`, `SimBus`, `Adapter` and
`Controller` are the handlers in place, proved against the machine's functions. `Loopback` and `Sequential` are the
two other ways of exchanging signals.

**Sub-stepping** (`Runtime`).

Check everything with `dafny verify dfyconfig.toml`.

## Conventions

- Times, physical values and scalar signals are `real`. Kahan corrections are then 0, which is proved where they occur.
- Raw values are naturals; 2^32 and the casts in container headers are written out.
- A UID stands for its signal. Names whose hashes collide, or hash to 0, are excluded by `CollisionFree`.
- `expected_model_count` is the number of UIDs on the channel.
- A transport delivers every message once, in order, per sender and receiver. Broadcasts go to the endpoints that a
  registration has made known.
- Fields that only record the past (`rounds`, `entries`, `left`, `out`, `syncs`) decide nothing.

## Where the code differs from what one might expect

- A periodic PDU whose payload hashes to 0 is not sent, since a forced Tx is a stored checksum of 0
  (`PduRuns.PeriodicTrace` has the exact condition, `Delivery.ZeroHashNotSent` a network and its runs). For the same
  reason a delayed I-PDU whose payload hashes to 0 is not offered again (`PduRuns.PendingNotLost`).
- A schedule whose base lies before tick 0 never fires (`PduRuns.PeriodicTrace`).
- A positive phase delays the first firing by an interval, as the normalised phase is then in [n, 2n)
  (`Matrix.PhaseNormalised`).
- A length of at least 2^31 in a Full header is assembled in a signed int and becomes a 64-bit one. Mostly it exceeds
  the payload and ends the parse; where the position wraps around, the parse may go back and need not end
  (`Container.EndsExactly` has the exact condition, `Container.StuckForever` a payload).
- A Short container cuts I-PDUs of 256 bytes and more (`Container.CutExactly` has the exact condition,
  `Container.CutHappens` a case).
- The loopback adapter drops a scalar written to a signal that also got bytes in the cycle
  (`Loopback.LoopbackIsBus` has the exact condition, `Loopback.RunIsBus` for runs).
- In sequential mode a replica need not have the bus value after a Start: `Sequential.StaleExactly` has the exact
  condition, `Sequential.LaterHolderStale` the step functions of a case. Such a value is overwritten before a model
  reads it, so runs are those of a shared store (`Sequential.RunIsShared`).

## Model

| member | source | states |
|---|---|---|
| `BitCodec.PackField` | dse/modelc/model/pdunet/matrix.c:469-520 | Packing in place, byte by byte under masks, turns the payload into one whose bits [start, start+length) are those of the raw value and whose other bits are untouched. |
| `BitCodec.UnpackField` | dse/modelc/model/pdunet/matrix.c:553-600 | Unpacking returns the number held by bits [start, start+length), for fields of up to 64 bits. |
| `BitCodec.PackNumeric` | dse/modelc/model/pdunet/matrix.c:466-521 | As one little-endian number, the packed payload has the same digits below and above the field and raw mod 2^length in it. |
| `BitCodec.UnpackPacked` | dse/modelc/model/pdunet/matrix.c:466-601 | What was packed is read back, cut to the field length. |
| `BitCodec.UnpackDisjoint` | dse/modelc/model/pdunet/matrix.c:466-601 | Packing a field leaves the value of every disjoint field. |
| `BitCodec.PackCommutes` | dse/modelc/model/pdunet/matrix.c:466-521 | Two disjoint fields may be packed in either order. |
| `Fields.PackUnique` | dse/modelc/model/pdunet/matrix.c:466-521 | The bit specification of packing has exactly one result, so the function Pack is what the loop leaves. |
| `Fields.UnpackAll` | dse/modelc/model/pdunet/matrix.c:466-601 | A whole range of disjoint fields, packed together, is read back field by field. |
| `Fields.PackAllIdempotent` | dse/modelc/model/pdunet/matrix.c:466-521 | Repacking the same raw values changes nothing, even when fields overlap; this is what keeps an idle PDU quiet. |
| `Scaling.EncodeFits` | dse/modelc/model/pdunet/matrix.c:365-376 | For a physical value with a step count in [0, 2^length) the raw value is that count rounded down and fits the field. |
| `Scaling.DecodeEncode` | dse/modelc/model/pdunet/matrix.c:363-438 | A decoded value lies within one factor of the encoded one and encodes to the same raw value. |
| `Checksum.Compute` | dse/modelc/model/pdunet/network.c:14-25 | The loop computes the 32-bit FNV-1a value of the payload. |
| `Checksum.PrimeInvertible` | dse/modelc/model/pdunet/network.c:22-23 | Multiplying by the FNV prime mod 2^32 is undone by 0x359C449B. |
| `Checksum.StepInjective` | dse/modelc/model/pdunet/network.c:21-24 | Equal results of one step mean: equal bytes exactly when equal states. |
| `Checksum.OneByteChange` | dse/modelc/model/pdunet/network.c:14-25 | Replacing one byte leaves the checksum the same exactly when the byte is the same. |
| `Checksum.ZeroHash` | dse/modelc/model/pdunet/network.c:14-25 | A non-empty payload can hash to 0, the value that marks a forced send. |
| `Container.ParseBuilt` | dse/modelc/model/pdunet/network.c:515-707 | For ids and lengths the header can carry, the parsing loop ends on the built payload and finds exactly the mapped I-PDUs, in order, and stops at the zero fill. |
| `Container.MappedIsSegment` | dse/modelc/model/pdunet/network.c:535-606 | Every mapped I-PDU is among the segments, with its id and bytes. |
| `Container.SegmentIsMapped` | dse/modelc/model/pdunet/network.c:535-606 | Every segment is a mapped I-PDU. |
| `Container.DeliverHit` | dse/modelc/model/pdunet/network.c:677-703 | A segment reaches the I-PDU with its id, whatever else is in the container. |
| `Container.DeliverMiss` | dse/modelc/model/pdunet/network.c:677-703 | An I-PDU that no segment names keeps its bytes; unknown ids disturb nothing. |
| `Container.UsedBytes` | dse/modelc/model/pdunet/network.c:535-606 | With any header and any ids, the bytes used are header plus written length over the mapped I-PDUs, and never exceed the container. |
| `Container.CutExactly` | dse/modelc/model/pdunet/network.c:580-604 | These are all the bytes of the mapped I-PDUs exactly when the cast of a length to the header width cuts none of them. |
| `Container.CutHappens` | dse/modelc/model/pdunet/network.c:580-604 | A case: a Short container writes 4 of the 260 bytes of an I-PDU of 256 bytes. |
| `Container.CarriedUncut` | dse/modelc/model/pdunet/network.c:576-604 | None is cut in a Static container, nor with ids and lengths that the header can carry. |
| `Container.GreedyOutcome` | dse/modelc/model/pdunet/network.c:536-558 | A pending I-PDU is mapped exactly when header and payload fit behind what is written for the mapped ones listed before it; later ones play no part. |
| `Container.MappedIsWritten` | dse/modelc/model/pdunet/network.c:576-604 | Byte by byte: what a mapped I-PDU puts into the container, with its id and cut length, big-endian, and where. |
| `Container.EndsExactly` | dse/modelc/model/pdunet/network.c:624-706 | On any payload the parsing loop ends exactly when no position recurs among its first n + 1 rounds, n being the length of the payload, and then within them. |
| `Container.StuckForever` | dse/modelc/model/pdunet/network.c:653-705 | On the payload 00 00 00 01 FF FF FF F8 every round returns to position 0: the loop never ends. |
| `Container.ShortRound` | dse/modelc/model/pdunet/network.c:632-674 | One parsing round behind a Short header, byte by byte: id, length, data and next position, or the end. |
| `Container.FullRound` | dse/modelc/model/pdunet/network.c:643-674 | One parsing round behind a Full header: id, sign-extended length, data and 64-bit position, or the end. |
| `Container.RoundAdvances` | dse/modelc/model/pdunet/network.c:653-705 | A round behind a Full header moves forward exactly when the length is below 2^31 or above 0xFFFFFFF8. |
| `Container.DefinedEnds` | dse/modelc/model/pdunet/network.c:624-706 | Where no length takes the 64-bit position past its end, the loop ends and its rounds find exactly the segments of the payload. |
| `Network.WithoutWrap` | dse/modelc/model/pdunet/network.c:624-706 | Without such a length the parse also copies bytes of the container only. |
| `Matrix.PushRows` | dse/modelc/model/pdunet/matrix.c:219-282 | The rows hold, PDU by PDU, exactly the signals, at offsets that are the running signal counts. |
| `Matrix.RowAt` | dse/modelc/model/pdunet/matrix.c:219-282 | Row offset + k of a PDU is its signal k: the row ranges partition the rows. |
| `Matrix.EmitRanges` | dse/modelc/model/pdunet/matrix.c:293-333 | At most one range per direction, each non-empty and holding exactly the rows and PDUs of its direction, and every Rx and Tx row in one, also when directions have no signals. |
| `Matrix.ListContained` | dse/modelc/model/pdunet/network.c:464-508 | The list of a container holds exactly the PDUs of its direction that name it, once each, sorted by priority. |
| `Matrix.PhaseNormalised` | dse/modelc/model/pdunet/matrix.c:232-256 | The phase in ticks is moved by whole intervals, into [n, 2n) if positive and (0, n] if negative; without interval or phase it is 0. |
| `Matrix.TicksAre` | dse/modelc/model/pdunet/matrix.c:232-256 | The interval is floor(interval / step) ticks; the phase is n plus or minus its ticks, cut towards zero, mod n. |
| `Network.LayoutFromMatrix` | dse/modelc/model/pdunet/matrix.c:219-282 | The transform produces the layout that all passes over the network rely on. |
| `PduNet.PduNet.constructor` | dse/modelc/model/pdunet/matrix.c:180-337 | From direction-sorted PDUs: a well-formed network with fresh, distinct, zero payloads, matrix rows, ranges, interval and phase in ticks, and container lists complete and sorted by priority. |
| `PduNet.PduNet.Start` | dse/modelc/controller/modelc.c:534-543 | Checksums become those of the payloads and send flags are clear. |
| `PduNet.StartsInitial` | dse/modelc/controller/modelc.c:534-543 | A new network, once started, is a state from which the whole-run theorems hold. |
| `PduNet.PduNet.Schedule` | dse/modelc/model/pdunet/network.c:36-117 | Skip flags, send flags and checksums become those of the schedule specification at this tick and epoch, also for PDUs without interval. |
| `PduNet.PduNet.EncodeLinear` | dse/modelc/model/pdunet/matrix.c:22-42 | Applying the range function to the Tx ranges encodes every due Tx row and no other. |
| `PduNet.PduNet.EncodePack` | dse/modelc/model/pdunet/matrix.c:49-55 | Every Tx payload becomes its raw values packed over it; other payloads stay, although all rows are walked in one run across PDUs. |
| `PduNet.PduNet.CheckNeedsTx` | dse/modelc/model/pdunet.c:383-416 | Send flags and checksums follow from comparing payload hash and stored checksum. |
| `PduNet.PduNet.MapToContainer` | dse/modelc/model/pdunet/network.c:515-609 | Writing headers and bytes at a moving offset builds the specified container payload, and leaves every I-PDU idle, delayed with checksum 0, or mapped with its hash stored. |
| `PduNet.PduNet.MapFromContainer` | dse/modelc/model/pdunet/network.c:614-707 | Parsing at a moving offset delivers what the rounds of the loop find to the listed I-PDUs, and ends: for every payload whose parse ends and copies bytes of the container only. |
| `PduNet.PduNet.LpduTx` | dse/modelc/model/pdunet/can.c:55-88 | The frames written are those of the flagged Tx PDUs outside containers, in matrix order; their flags are cleared. |
| `PduNet.PduNet.LpduRx` | dse/modelc/model/pdunet/can.c:91-119 | Every frame is copied to the matching Rx PDUs and marks them for update. |
| `PduNet.PduNet.DecodeUnpack` | dse/modelc/model/pdunet/matrix.c:57-60 | Every Rx row takes the value of its field, no other row changes. |
| `PduNet.PduNet.DecodeLinear` | dse/modelc/model/pdunet/matrix.c:44-47 | Every Rx row is decoded within its limits, no other row changes. |
| `PduNet.PduNet.Transmit` | dse/modelc/model/pdunet.c:238-288 | A whole Tx pass at tick floor((t + step * 0.01) / step), buffers and flags updated in place, refines the Tx step of the specification and emits its frames. |
| `PduNet.PduNet.Receive` | dse/modelc/model/pdunet.c:313-339 | A whole Rx pass refines the Rx step of the specification. |
| `PduRuns.StandaloneTick` | dse/modelc/model/pdunet.c:238-288 | One tick of a PDU outside containers: it is sent exactly when due and its hash differs from the reference, and stays settled. |
| `PduRuns.SentInIffSends` | dse/modelc/model/pdunet/can.c:55-88 | With distinct ids, a frame with the id is emitted exactly when the PDU is flagged, and carries its payload. |
| `PduRuns.PeriodicTrace` | dse/modelc/model/pdunet/network.c:65-116 | Over any run, whatever ticks its steps fall on, a periodic PDU is sent at exactly the ticks t >= base >= 0 with t congruent to base mod n whose payload does not hash to 0. |
| `PduRuns.ChangeTrace` | dse/modelc/model/pdunet.c:393-411 | Over any run a change PDU is sent exactly where its hash differs from that of the payload last sent: at every step without an interval, else at ticks t >= base >= 0 with t congruent to base mod n. |
| `PduRuns.OneByteChangeIsSent` | dse/modelc/model/pdunet.c:393-411 | A change of one byte is always sent at the next step that the schedule fires at. |
| `PduRuns.ContainedTick` | dse/modelc/model/pdunet/network.c:535-606 | One tick of an I-PDU in a container: pending at a firing means mapped with its hash stored, or delayed with checksum 0; otherwise nothing changes. |
| `PduRuns.ContainedTrace` | dse/modelc/model/pdunet/network.c:535-606 | Over any run, in full: an I-PDU is mapped only where its container fires (at every step without an interval) and its hash differs from the checksum, which becomes the hash if it is mapped and 0 if not. |
| `PduRuns.ChecksumIsLastMapped` | dse/modelc/model/pdunet/network.c:551-566 | Over any run a non-zero stored checksum is the hash of the payload last mapped (or initial). |
| `PduRuns.PendingNotLost` | dse/modelc/model/pdunet/network.c:535-606 | Over any run, what differs from its checksum at a firing is mapped or left with checksum 0, and 0 makes it pending again exactly when its hash is not 0. |
| `PduRuns.DelayedByPriority` | dse/modelc/model/pdunet/network.c:535-558 | A pending I-PDU is mapped exactly when header and length fit behind what is mapped before it, and waits otherwise: before it is every I-PDU of smaller priority, and none of greater. |
| `PduRuns.NamedIsContained` | dse/modelc/model/pdunet/network.c:464-508 | With distinct ids, an I-PDU that names a Tx container is in its list, and in no other. |
| `Flexray.FiresFromResync` | dse/modelc/model/pdunet/flexray.c:218-230 | If the cycle is a whole number of intervals, after a resync the PDU fires at the ticks congruent to the resync tick plus phase, once past the base. |
| `Flexray.ResyncExact` | dse/modelc/model/pdunet/flexray.c:218-230 | That holds for all resyncs exactly when the cycle is a whole number of intervals. |
| `Flexray.ResyncStable` | dse/modelc/model/pdunet/flexray.c:218-230 | Resyncs whole intervals apart leave the eventual schedule unchanged. |
| `Flexray.ResyncTrace` | dse/modelc/model/pdunet/flexray.c:218-230 | Over any run with resyncs at changes of the cycle number, a periodic PDU past its base is sent exactly at the ticks congruent to the last resync tick plus phase, unless its payload hashes to 0. |
| `PduNet.PduNet.FlexrayStatus` | dse/modelc/model/pdunet/flexray.c:218-230 | A new cycle sets the epoch to the position of the last Tx tick in its cycle; the same cycle changes nothing. |
| `Transport.FrameArrives` | dse/modelc/model/pdunet/can.c:91-119 | When every frame with the id carries the same bytes, the receiver holds them, whatever other frames come. |
| `Transport.OneFrame` | dse/modelc/model/pdunet/can.c:91-119 | One frame, byte by byte: an Rx PDU outside containers with the id takes what the frame carries and keeps its tail; no other PDU changes. |
| `Transport.Untouched` | dse/modelc/model/pdunet.c:313-339 | An I-PDU keeps its bytes while no container that lists it is received, and all update flags end up clear. |
| `Transport.FramesInOrder` | dse/modelc/model/pdunet/can.c:55-88 | The frames of a pass are those of the flagged Tx PDUs outside containers, once each, in matrix order. |
| `Transport.OnlyTx` | dse/modelc/model/pdunet.c:383-416 | A Tx pass leaves the bytes of every PDU of another direction, and no send flag on it. |
| `Transport.ContainerTrace` | dse/modelc/model/pdunet/network.c:531-608 | Over any run a container is sent at exactly the steps where it fires and maps something. |
| `Transport.StandaloneArrives` | dse/modelc/model/pdunet.c:238-339 | A sent PDU arrives: sender and receiver hold the same bytes. |
| `Transport.ContainedArrives` | dse/modelc/model/pdunet/network.c:515-707 | A mapped I-PDU arrives through its container, across build, frame and parse. |
| `Transport.BuiltDefined` | dse/modelc/model/pdunet/network.c:515-706 | What a sender builds from I-PDUs that the header can carry, a receiver parses to the end and within bounds. |
| `Transport.RawArrives` | dse/modelc/model/pdunet/matrix.c:466-601 | Arrived bytes mean that each disjoint field has the raw value of the sender, cut to its length. |
| `Transport.TxRow` | dse/modelc/model/pdunet/matrix.c:363-377 | A Tx row in full: where it fires, a value within the limits becomes floor((value - offset) / factor); outside, or not scaled, the raw value stays. |
| `Transport.RxRow` | dse/modelc/model/pdunet/matrix.c:420-438 | An Rx row in full: raw * factor + offset if that is within the limits; otherwise the physical value stays. |
| `Transport.ValueArrives` | dse/modelc/model/pdunet/matrix.c:363-438 | The receiver decodes, within its limits, a value within one factor of the encoded one, which encodes to the same raw value. |
| `Delivery.RawFollows` | dse/modelc/model/pdunet/matrix.c:364-376 | Over any run a raw value is the encoding of the physical value at the last due step. |
| `Delivery.RowTrace` | dse/modelc/model/pdunet/matrix.c:363-377 | Over any run, every step of a raw value: encoded at every step without an interval, else where the schedule fires, within the limits; otherwise kept. |
| `Delivery.StandaloneDelivers` | dse/modelc/model/pdunet.c:238-339 | End to end over any run: a PDU sent at a tick delivers every representable signal to a matching receiver. |
| `Delivery.ContainedDelivers` | dse/modelc/model/pdunet/network.c:515-707 | End to end over any run: an I-PDU mapped at a tick delivers every representable signal through matching containers. |
| `Delivery.ZeroHashNotSent` | dse/modelc/model/pdunet/network.c:107-112 | A periodic PDU whose payload becomes one that hashes to 0 is due and not sent: a network, and every run in which the model writes that value. |
| `Barrier.StepKeeps` | dse/modelc/adapter/simbus/handler.c:180-478 | Every step of the bus, of a process, a timeout, an exit or a crash keeps the protocol invariant. |
| `Barrier.LockStepSafety` | dse/modelc/adapter/simbus/handler.c:416-477 | Over any interleaving: starts seen <= cycles <= Readies sent <= starts seen + 1, for each process. |
| `Barrier.StartTimes` | dse/modelc/adapter/simbus/handler.c:447-475 | The k-th Start that a process takes carries [(k-1)*step, k*step). |
| `Barrier.ModelTimes` | dse/modelc/adapter/adapter_msg.c:339-365 | Over any run, a process that has answered its k-th Start is at time k*step; while its models step it is one step before. |
| `Barrier.NeverStalls` | dse/modelc/adapter/simbus/states.c:16-44 | Deadlock freedom: while nobody has left, something other than a timeout can always happen. |
| `Progress.CycleWithin` | dse/modelc/adapter/simbus/handler.c:416-477 | Bounded progress over any interleaving: without exits, more steps than the work left in a state, timeouts included, complete its cycle. |
| `Progress.CycleCompletes` | dse/modelc/adapter/simbus/handler.c:416-477 | While nobody has left, any run can be continued to the end of the cycle within that bound, without timeouts. |
| `Barrier.ReadyMeansAll` | dse/modelc/adapter/simbus/states.c:16-35 | With the expected counts equal to the numbers of UIDs, the count comparisons hold exactly when the sets are complete. |
| `Barrier.NoStartAfterExit` | dse/modelc/adapter/simbus/states.c:65-77 | Once an exit is taken no further cycle is started, whatever happens. |
| `Barrier.NoStartDropped` | dse/modelc/adapter/message.c:32-125 | No Start is ever in flight to a process that waits for a register or index ACK. |
| `Barrier.RegisterAgain` | dse/modelc/adapter/simbus/states.c:47-53 | Re-sent registrations leave the bus unchanged. |
| `Acks.AckIsOwn` | dse/modelc/adapter/message.c:39-100 | Over any run an ACK is taken exactly with the outstanding token and an own UID; it then answers the own last request, and the slot is registered or its signals are on the bus. |
| `Leaving.GivesUp` | dse/modelc/adapter/adapter_msg.c:137-179 | Over any run a timeout asks again for the same slot up to the fifth time, then goes on without it. |
| `Leaving.LoopLeft` | dse/modelc/adapter/simbus/states.c:65-77 | Over any run, once all processes have exited and no message is left, the bus has left its loop with nobody registered. |
| `Leaving.TraceReady` | dse/modelc/adapter/simbus/states.c:65-77 | Over any run the UIDs that are ready on a channel are registered on it: an exit takes them from both sets. |
| `Barrier.RoundsFull` | dse/modelc/adapter/simbus/handler.c:416-477 | Each cycle is made of exactly one Ready of every process. |
| `Replication.ReplicaIsBus` | dse/modelc/adapter/simbus/handler.c:121-135 | At any time, a replica with the Start in flight applied has the bus value, though only changes are sent. |
| `Replication.AfterStart` | dse/modelc/adapter/adapter_msg.c:425-445 | After a Start, val, final_val and the bus value agree for every signal of the process. |
| `Scalars.WritesResolved` | dse/modelc/adapter/simbus/handler.c:66-91 | Over any run, completing a cycle gives every signal the last value other than its old one that was written in it, in the order of the Readies, or its old value. |
| `Scalars.StartIsChanges` | dse/modelc/adapter/simbus/handler.c:119-157 | Over any run, the Start that ends a cycle carries to every connected process exactly the values that have changed. |
| `Scalars.ValuesStay` | dse/modelc/adapter/simbus/handler.c:66-91 | Nothing else changes the value of a signal on the bus. |
| `Conservation.SentContribution` | dse/modelc/controller/controller.c:143-164 | One Ready: what it carries for a signal is what the model appended after its last reset. |
| `Conservation.OutsCarry` | dse/modelc/controller/controller.c:143-164 | Over any run, the r-th Ready of a process carries what its models appended after the last reset in their r-th step; nothing without a reset. |
| `Conservation.BytesDelivered` | dse/modelc/adapter/simbus/handler.c:138-161 | After its k-th Start a model holds exactly the bytes of the k-th Readies of all processes, each once, in the order taken. |
| `Conservation.AppendedIsDelivered` | dse/modelc/controller/controller.c:90-164 | After its k-th Start a buffer is exactly what the models of all processes appended in their k-th steps, each process once, in the order the bus took the Readies. |
| `Conservation.NothingLeftOver` | dse/modelc/adapter/simbus/handler.c:84-91 | No buffer of the bus carries bytes into a later cycle. |
| `BusData.OutIsContribution` | dse/modelc/controller/controller.c:143-164 | Marshalling out after any sequence of resets and appends leaves exactly the bytes appended since the last reset. |
| `BusData.WrittenChanged` | dse/modelc/adapter/simbus/handler.c:66-81 | When all writes differ from val, a written signal is a changed one at the end of the cycle. |
| `Controller.FunctionChannel.AdapterToModel` | dse/modelc/controller/controller.c:90-122 | The marshal loop consumes the adapter's binaries and clears the reset flags, and with scalars only leaves them. |
| `Controller.FunctionChannel.ModelToAdapter` | dse/modelc/controller/controller.c:123-166 | The marshal loop drops buffers that were not reset, hands over the others, and sets final_val. |
| `ChannelIndex.Channel.FindByUid` | dse/modelc/adapter/index.c:93-109 | The cached lookup finds exactly what the linear search finds. |
| `ChannelIndex.Channel.GetSignalValue` | dse/modelc/adapter/index.c:112-124 | The named signal; a missing one is added with value 0, UID 0, and the index invalidated. |
| `ChannelIndex.Channel.GenerateIndex` | dse/modelc/adapter/index.c:38-46 | The index covers every signal, and every assigned UID is cached. |
| `ChannelIndex.Channel.Lookup` | dse/modelc/adapter/simbus/handler.c:16-27 | A looked-up signal exists and has the hash of its name; values of others stay. |
| `ChannelIndex.Channel.TakeUid` | dse/modelc/adapter/adapter_msg.c:484-508 | A reply entry assigns and caches the UID of the named signal only. |
| `ChannelIndex.Channel.Encode` | dse/modelc/adapter/simbus/handler.c:119-157 | The lists hold each changed scalar and each non-empty binary with a UID, once. |
| `SimBus.SimBus.NetworkReady` | dse/modelc/adapter/simbus/states.c:16-24 | True exactly when every channel has the expected number of registered UIDs. |
| `SimBus.SimBus.ModelAtExit` | dse/modelc/adapter/simbus/states.c:65-77 | The UID leaves both sets; the run loop ends exactly when nobody is registered. |
| `SimBus.SimBus.ProcessNotify` | dse/modelc/adapter/simbus/handler.c:30-81 | A vector's binaries are appended and its scalars become final_val, unknown UIDs being ignored. |
| `SimBus.SimBus.ResolveAndNotify` | dse/modelc/adapter/simbus/handler.c:94-171 | The message carries exactly the changes of all channels, and every channel is resolved. |
| `SimBus.SimBus.HandleRegister` | dse/modelc/adapter/simbus/handler.c:236-252 | A registration adds the UID and makes the endpoint known; nothing else of the bus changes. |
| `SimBus.SimBus.HandleReady` | dse/modelc/adapter/simbus/handler.c:416-477 | With the expected counts of the configuration, the handler refines the bus step of the protocol machine: the check that ends the cycle, Kahan time and the Start. |
| `SimBus.SimBus.HandleIndex` | dse/modelc/adapter/simbus/handler.c:319-386 | Replies the UID of every name, having created exactly the missing signals. |
| `Adapter.AdapterModel.EncodeSv` | dse/modelc/adapter/adapter_msg.c:39-105 | The vectors of a Ready are those that the process of the protocol machine sends, and the binaries are consumed as there. |
| `Adapter.AdapterModel.NotifyModel` | dse/modelc/adapter/adapter_msg.c:365-449 | A Start sets the times; the cells of the protocol machine become what the adapter holds, marshalled to the model. |
| `Adapter.WaitMessage` | dse/modelc/adapter/message.c:196-253 | Receives up to the first message waited for: an ACK with the token and a UID of the process, or a Start after a Ready. All before it lack one of these and leave the process as it is. |
| `Loopback.Loopback.ModelReady` | dse/modelc/adapter/adapter_loopb.c:442-497 | The loops over models and signals write scalars and append binaries to the shared vectors in order, clearing lengths once per cycle. |
| `Loopback.Loopback.ModelStart` | dse/modelc/adapter/adapter_loopb.c:500-561 | Every model takes bytes or else the scalar from the vectors, and its stop time moves by a step. |
| `Loopback.Loopback.Cycle` | dse/modelc/adapter/adapter_loopb.c:442-561 | Ready and Start together: every model has what the vectors make of the signals of all models. |
| `Loopback.LoopbackIsBus` | dse/modelc/adapter/adapter_loopb.c:453-476 | From related states the vectors leave a signal as encode, bus and notify would, exactly when it is not both written and appended to in the cycle. |
| `Loopback.LoopbackStaysInStep` | dse/modelc/adapter/adapter_loopb.c:515-545 | Under that condition vector, bus and all models agree for the next cycle. |
| `Loopback.RunIsBus` | dse/modelc/adapter/adapter_loopb.c:442-561 | Over any run in which a signal has not been mixed so far, vectors and bus give a model the same, exactly when it is not mixed in this cycle either. |
| `Loopback.MixedSignalLost` | dse/modelc/adapter/adapter_loopb.c:463-476 | A signal both written and appended to: the written value is lost. |
| `Sequential.Stack.MergeForward` | dse/modelc/controller/step.c:189-204 | Each signal takes the final_val of the last model to the left that holds it. |
| `Sequential.Stack.MergeBackward` | dse/modelc/controller/step.c:137-154 | Each signal takes the final_val of the last other model that holds it. |
| `Sequential.Stack.StepModels` | dse/modelc/controller/step.c:207-250 | After stepping and merging, every model has seen and holds what it would with one shared store that the models read and write in turn. |
| `Sequential.LastOutputWins` | dse/modelc/controller/step.c:207-250 | In the shared store a signal has what the last model that holds and writes it returned from the values before it. |
| `Sequential.UnwrittenKept` | dse/modelc/controller/step.c:207-250 | A signal that no holder writes keeps its value. |
| `Sequential.AgreedResolves` | dse/modelc/adapter/simbus/handler.c:66-91 | When all writes of a signal agree the bus resolves to that value in any order, also when it is the old one. |
| `Sequential.SentEncodes` | dse/modelc/adapter/adapter_msg.c:39-105 | The vectors of all models and channels, in any order, carry every changed signal of the stack and nothing else. |
| `Sequential.CycleResolves` | dse/modelc/controller/step.c:239-247 | A cycle leaves the bus with the shared store, whatever the order of the vectors. |
| `Sequential.CycleKeeps` | dse/modelc/controller/step.c:215-247 | And the first holder of each signal enters the next cycle with the value of the shared store. |
| `Sequential.RunIsShared` | dse/modelc/controller/step.c:207-250 | Over any run, after n cycles the bus and the first holders have the values of the shared store after n rounds of all models. |
| `Sequential.RunKeepsUnwritten` | dse/modelc/controller/step.c:207-250 | Over any run a signal that no model writes keeps its value on the bus. |
| `Sequential.StaleExactly` | dse/modelc/adapter/adapter_msg.c:425-445 | After a Start a model has the bus value of a signal exactly when the cycle has changed the value, or the model has seen the old one. |
| `Sequential.LaterHolderStale` | dse/modelc/controller/step.c:157-181 | A case: step functions, a bus and the vectors of the stack, after whose Start the second holder does not have the bus value. |
| `Runtime.RuntimeModel.Step` | dse/modelc/controller/model_runtime.c:168-222 | The do-while loop makes exactly the steps missing to floor((stop + 0.01 * step) / step), and the model time is their number times step; the Kahan correction stays 0. |
| `Runtime.PartitionIndependent` | dse/modelc/controller/model_runtime.c:168-222 | For any non-decreasing stop times the total is floor((T + 0.01 * step) / step) of the last one, or 0. |
| `Runtime.TimeReached` | dse/modelc/controller/model_runtime.c:168-222 | The model time lies in (T + 0.01 * step - step, T + 0.01 * step]. |

## Left out

- Floating-point rounding and NaN arithmetic: exact reals are used; absent factors, offsets and limits are `None`.
- Lua hooks on signals and PDUs, which may change values or reject a PDU.
- Conversions C does not define: a raw value outside 64 bits stands for 0; Rx fields are at most 64 bits long; container lengths from 2^31 on are read as gcc does, as negative ints.
- Wrap-around of the 32-bit tick counter.
- Static container headers on the Rx side, which carry no id; they are modelled on the Tx side.
- Containers inside containers: a container lists only PDUs that carry signals.
- The library's sorts: the order of the PDUs by direction is an input, and I-PDUs of equal priority may come in any order.
- PduNet.PduNet.Receive: excludes containers whose parse never ends, or copies bytes from outside the container (`Network.ParseDefined`), for which there is no result to state.
- PduNet.PduNet.MapFromContainer: excludes the same.
- PduNet.PduNet.constructor: containers have an id other than 0, which stands for no container.
- PduNet.PduNet.FlexrayStatus: only the epoch change of the FlexRay receive loop is modelled, not its LPDU states.
- ChannelIndex.Channel.GenerateIndex: the order of hash-map keys is that of creation; messages are maps, so no result depends on it.
- Barrier.NoStartAfterExit: processes do not register again after leaving.
- Sequential.Stack.StepModels: models sharing a channel declare the same signals on it, as a missing one would be created with value 0; a model that ends the step with an error is not modelled.
- Sequential.RunIsShared: the stack is the only process that writes its signals.
- Controller.FunctionChannel.AdapterToModel: a function channel owns its signals; several function channels on one adapter channel, and value transforms, are not modelled.
- Loopback.Loopback.ModelReady: the channels of the vectors are joined into one index; direct indexing is not modelled.
- Replication.AfterStart: for the non-sequential mode.
- Connecting over a process's several models is one list of slots in the order of the source; benchmarking, tracing and logging are omitted.
- Transports, message encoding, YAML parsing, model loading, memory management and the command-line tools.
