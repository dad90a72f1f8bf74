# Packet-switch queueing and PCM companding, in Dafny

This project models two pieces of the `qos` teaching repository.

**Packet network (`packet_network.dfy`, module `PacketNetwork`).** The
simulation model of `qos-02`:

- Packets take their ids from a counter that all packets share.
- A switch port admits packets into a FIFO queue under a byte capacity, with
  tail-drop. Its server loop takes the head packet and subtracts its size from
  the byte count. It records the packet in an optional tap, waits
  `8 * size / rate` and then hands the packet to its destination.
- A sink stamps each packet it terminates with its own id and the arrival time,
  then logs it.
- A tap counts the packets it observes and keeps their sizes and times.
- A switch is a collection of identically configured ports numbered from 0.
- A source builds a packet and hands it to its destination.

Objects the code updates in place are classes. These are `SwitchPort`,
`PacketSink`, `NetworkTap`, `Packet` (its sink fields), the id counter
`PacketIds` and `Switch`. The code runs on a discrete-event scheduler. Here each
coroutine becomes a step method that takes the current virtual time `now`:

- `SwitchPort.Dequeue` is the server loop resuming from its get.
- `SwitchPort.FinishTransmit` is the transmission timeout firing.
- `PacketSource.GeneratePacket` is the source's interval elapsing.

The store behind a port is the field `queue: seq<Packet>`. The packet the server
loop holds between the two port steps is the field `current`.

The admission rule is modelled with its quirks:

- A capacity of `None` admits every packet and never adds to `byte_count`, yet
  the dequeue step still subtracts. Under no capacity the count therefore drifts
  below zero.
- A capacity of `0` is falsy, so it admits every packet and does count it.
- A packet that brings the count exactly to the capacity is admitted.

For a positive capacity and non-negative sizes, admission and dequeue keep the
port invariant `SwitchPort.Valid`. It says the byte count equals the bytes in
the queue and never exceeds the capacity.

**PCM companding (`pcm_companding.dfy`, module `PcmCompanding`).** The mu-law and
A-law encoders of `qos-03`, modelled as written:

- A sample is clipped to 16 bits and its sign is split off.
- The segment is `floor(log2 m) - 6`, clamped to 0..7. Here `m` is the magnitude
  plus 0x84 for mu-law, and the plain magnitude for A-law.
- The mantissa is `(m >> (seg + 3)) & 0x0F`.
- The three fields are packed into a byte with `|` and `<<` on `bv8`. Mu-law
  then complements the byte; A-law XORs it with 0x55.

For magnitudes in [128, 16384) the code's segment is one more than the exponent
ITU-T G.711 gives. Below 128 both give 0. From 16384 on the code clamps to 7,
and G.711's top octave is 7 too. The code's A-law sign bit is 1 for negative
samples. The model keeps all of this.

The proofs show several things:

- The fields come back exactly from a code word.
- The top bit of a code word carries the sign.
- The segment pins the magnitude to one octave.
- Below 16384 the mask discards nothing.
- In segment 7 the mask does discard bits. Magnitudes `m` and `m + 16384` then
  get the same code word. So the encoders are neither injective nor monotone for
  loud samples (`UlawFoldOver`, `AlawFoldOver`).

The array functions apply the per-sample encoder elementwise.

## Model

| member | source | states |
|---|---|---|
| `PcmCompanding.Clip` | qos-03/qos_03/lib/core.py:8-9 | the clipped sample lies in [-32768, 32767], equals the input when the input is in range, and is the bound on the input's side otherwise |
| `PcmCompanding.Log2Floor` | qos-03/qos_03/lib/core.py:19 | the integer log is the `r` with `2^r <= m < 2^(r+1)`, the floor of the base-2 logarithm, which equals the int cast of `np.log2(m)` on the magnitudes the encoders produce (`1 <= m <= 32900`) |
| `PcmCompanding.Segment` | qos-03/qos_03/lib/core.py:19 | the segment is always in 0..7 |
| `PcmCompanding.SegmentBounds` | qos-03/qos_03/lib/core.py:19 | a segment above 0 means `m >= 2^(seg+6)`, a segment below 7 means `m < 2^(seg+7)`: the clamped `floor(log2 m) - 6` places `m` in one octave |
| `PcmCompanding.SegmentEnds` | qos-03/qos_03/lib/core.py:19 | segment 0 holds exactly the magnitudes below 128, segment 7 exactly those from 8192 on |
| `PcmCompanding.Mantissa` | qos-03/qos_03/lib/core.py:22 | the masked shift lies in 0..15 |
| `PcmCompanding.MantissaIsShiftedMagnitude` | qos-03/qos_03/lib/core.py:19-22 | for `m < 16384` the mask drops nothing: the mantissa is `m >> (seg + 3)`, and at least 8 in segments above 0 |
| `PcmCompanding.UnpackPack` | qos-03/qos_03/lib/core.py:25 | packing sign, segment and mantissa with shifts and OR loses nothing: reading the bits back yields the fields, and the byte's value is `128*sign + 16*seg + mantissa` |
| `PcmCompanding.UlawFields` | qos-03/qos_03/lib/core.py:8-22 | the mu-law sign, segment and mantissa are within 1, 3 and 4 bits |
| `PcmCompanding.AlawFields` | qos-03/qos_03/lib/core.py:33-44 | the A-law sign, segment and mantissa are within 1, 3 and 4 bits |
| `PcmCompanding.UlawByte` | qos-03/qos_03/lib/core.py:25-27 | a mu-law code word equals `255 - (128*sign + 16*seg + mantissa)`, the 8-bit complement of the packed fields |
| `PcmCompanding.AlawByte` | qos-03/qos_03/lib/core.py:47-49 | XOR-ing an A-law code word with 0x55 yields a byte of value `128*sign + 16*seg + mantissa`, the packed fields |
| `PcmCompanding.UlawFieldsRecovered` | qos-03/qos_03/lib/core.py:25-27 | complementing a mu-law code word within 8 bits gives back sign, segment and mantissa exactly |
| `PcmCompanding.AlawFieldsRecovered` | qos-03/qos_03/lib/core.py:47-49 | XOR-ing an A-law code word with 0x55 gives back sign, segment and mantissa exactly |
| `PcmCompanding.UlawTopBitMeansNonNegative` | qos-03/qos_03/lib/core.py:12-25 | a mu-law code word is at least 128 if and only if the sample is non-negative |
| `PcmCompanding.AlawTopBitIsSign` | qos-03/qos_03/lib/core.py:37-47 | bit 7 of an A-law code word is 1 exactly for negative samples |
| `PcmCompanding.SegmentsOfSample` | qos-03/qos_03/lib/core.py:13-19 | the octave law holds for the biased mu-law magnitude and for the plain A-law magnitude of any sample |
| `PcmCompanding.SegmentSevenFoldsOver` | qos-03/qos_03/lib/core.py:19-22 | for `8192 <= m < 16384`, the magnitudes `m` and `m + 16384` both fall in segment 7 with the same mantissa |
| `PcmCompanding.UlawFoldOver` | qos-03/qos_03/lib/core.py:13-25 | samples 8060..16251 and 24444..32635 encode to the same mu-law code words, pairwise 16384 apart |
| `PcmCompanding.AlawFoldOver` | qos-03/qos_03/lib/core.py:38-47 | samples 8192..16383 and 24576..32767 encode to the same A-law code words, pairwise 16384 apart |
| `PcmCompanding.LinearToUlaw` | qos-03/qos_03/lib/core.py:4-27 | one code word per sample; code word i is the encoding of sample i alone |
| `PcmCompanding.LinearToAlaw` | qos-03/qos_03/lib/core.py:29-49 | one code word per sample; code word i is the encoding of sample i alone |
| `PacketNetwork.Timeout` | qos-02/qos_02/lib/core.py:299 | a wait of `delay` issued at `now` resumes at `now + delay`, and fails exactly when the delay is negative |
| `PacketNetwork.TransmissionTime` | qos-02/qos_02/lib/core.py:299 | the transmission time times the rate is `8 * size`; it fails exactly when the rate is 0 |
| `PacketNetwork.DeadlineOnPositiveRate` | qos-02/qos_02/lib/core.py:299 | under a positive rate a packet of non-negative size finishes no earlier than it starts, after `8 * size / rate` |
| `PacketNetwork.Admits` | qos-02/qos_02/lib/core.py:317-322 | a packet is dropped only under a capacity other than `None` and 0; under a positive capacity an admitted packet keeps `byte_count + size` within it |
| `PacketNetwork.AdmitsExactly` | qos-02/qos_02/lib/core.py:314-325 | no capacity admits all; capacity 0 admits all; any other capacity admits iff `byte_count + size <= capacity` |
| `PacketNetwork.OversizedPacketDropped` | qos-02/qos_02/lib/core.py:320-322 | under a positive capacity, with a non-negative byte count, a packet larger than the capacity is dropped |
| `PacketNetwork.SumAppend` | qos-02/qos_02/lib/core.py:415 | appending a size to a list adds it to the list's sum |
| `PacketNetwork.OccupancyAppend` | qos-02/qos_02/lib/core.py:324-325 | appending a packet adds its size to the bytes the queue holds |
| `PacketNetwork.OccupancyPopHead` | qos-02/qos_02/lib/core.py:308-310 | removing the head packet takes its size off the bytes the queue holds |
| `PacketNetwork.OccupancyWithinCapacity` | qos-02/qos_02/lib/core.py:306-325 | a valid port with a positive capacity holds between 0 and `capacity` bytes, exactly the bytes of its queue |
| `PacketNetwork.RoundSize` | qos-02/qos_02/lib/core.py:161-164 | a callable size setting gives the drawn value; a fixed one gives the number cut toward zero: the largest int not above it when non-negative, the smallest not below it when negative |
| `PacketNetwork.FixedPacketSize` | qos-02/qos_02/lib/core.py:161-162 | a fixed numeric size becomes an int by cutting toward zero, as `GeneratePacket` applies it for a fixed size setting |
| `PacketNetwork.PacketIds.constructor` | qos-02/qos_02/lib/core.py:207 | the shared counter starts at 0 |
| `PacketNetwork.Packet.constructor` | qos-02/qos_02/lib/core.py:224-229 | a new packet takes the counter's value as id and advances it by one, so ids strictly increase; it carries the given size and source, `creation_time = now`, and no sink id or time |
| `PacketNetwork.PacketSink.constructor` | qos-02/qos_02/lib/core.py:501-503 | a new sink has its id and an empty log |
| `PacketNetwork.PacketSink.ProcessPacket` | qos-02/qos_02/lib/core.py:514-518 | the packet gets this sink's id and `now` as sink time and is appended to the log; nothing else of it changes |
| `PacketNetwork.NetworkTap.constructor` | qos-02/qos_02/lib/core.py:400-403 | a new tap has count 0 and empty size and time lists, so count and lengths agree |
| `PacketNetwork.NetworkTap.TotalSize` | qos-02/qos_02/lib/core.py:415 | the total of observed sizes is non-negative when every size is |
| `PacketNetwork.NetworkTap.TapPacket` | qos-02/qos_02/lib/core.py:426-428 | the count grows by one, size and time are appended, the total grows by the size, `count == len(sizes) == len(times)` is kept, and the packet is not touched |
| `PacketNetwork.Deliver` | qos-02/qos_02/lib/core.py:301-302 | a packet handed to a port is admitted or dropped by its rule; one handed to a sink is stamped and logged; a receiving port's `processing` and held packet are untouched and its invariant is kept for a non-negative size; an event comes back exactly when a port admits |
| `PacketNetwork.SwitchPort.constructor` | qos-02/qos_02/lib/core.py:269-280 | a new port has its configuration, an empty queue, byte count 0, no destination, is not processing, and satisfies the port invariant |
| `PacketNetwork.SwitchPort.ProcessPacket` | qos-02/qos_02/lib/core.py:314-325 | a packet is admitted iff the tail-drop rule says so; if admitted it is appended at the tail and, under a capacity, its size is added; if dropped, queue and count are unchanged; accounting and the invariant are kept (the invariant for non-negative sizes) |
| `PacketNetwork.SwitchPort.Dequeue` | qos-02/qos_02/lib/core.py:296-311 | an empty queue leaves everything as it was; otherwise the head packet is removed in FIFO order, `processing` becomes true, its size is subtracted, the tap records its size and `now`, and the transmission ends at `now + 8*size/rate` or fails on rate 0 or a negative time; the invariant is kept |
| `PacketNetwork.SwitchPort.FinishTransmit` | qos-02/qos_02/lib/core.py:300-312 | the packet goes to the destination exactly once and `processing` becomes false; the port keeps its tap and destination; the returned event is true exactly when the destination is a port that admits the packet; another receiving port keeps its queue-server state (`processing`, held packet); a receiving port keeps its invariant for a non-negative size; with no destination the step fails with the port unchanged |
| `PacketNetwork.Switch.constructor` | qos-02/qos_02/lib/core.py:365-376 | a switch holds `num_ports` distinct new ports (none for a negative count), numbered 0, 1, ..., all with the given capacity and rate and in their initial state |
| `PacketNetwork.PacketSource.constructor` | qos-02/qos_02/lib/core.py:138-142 | a new source has its id, destination and size setting |
| `PacketNetwork.PacketSource.GeneratePacket` | qos-02/qos_02/lib/core.py:161-172 | with a destination, a new packet with the next id, `now` and the source id is handed to it; its size is the fixed size cut toward zero (non-negative for a non-negative setting) or the callable's result; a receiving port admits or drops it, keeps its tap, destination and server state, and keeps its invariant for a non-negative size; without a destination the step fails and no id is drawn |

## Left out

- The discrete-event scheduler is left out (`simpy.Environment`, `env.process`, the event queue, the blocking `Store.get`). The `while True` loops of `PacketSource.start` and `SwitchPort.start` are not modelled as loops. Each resumption is a step method instead. The order in which a driver calls the steps, and how time advances, are not modelled.
- A source's wait for its interval is `Timeout(now, interval)`. The interval and size callables are foreign calls. Their results are parameters: `drawn` of `GeneratePacket` (used when the source's size setting is `DrawnSize`), and the interval passed to `Timeout`.
- Packet ids: in the code the counter is a class attribute of `Packet` (qos-02/qos_02/lib/core.py:207), so all packets share it. Here it is a `PacketIds` object passed to each `GeneratePacket` call. Ids are unique across sources only when the caller passes the same counter every time; the model does not enforce that.
- `print` calls (the size print in `generate_packet`), `display_statistics` and `__repr__` are console output and are not modelled.
- `visualize_topology` is graph rendering and is not modelled.
- Times and rates are `real`. Floating-point rounding of `8 * size / rate` and of times is not modelled.
- `Timeout`: the refusal of a negative delay is the scheduler's behaviour, not the core's. It is modelled as an error result.
- `SwitchPort.Dequeue` and `SwitchPort.FinishTransmit` require the server loop to be at the matching suspension point. Those are parked on the get, or holding a packet in transmission. The scheduler only resumes a coroutine there.
- After a step fails (no destination, rate 0, negative delay), the model does not stop the crashed coroutine. The error result is returned to the caller. As in the code, `processing` stays true, so `Dequeue` is never enabled again on that port.
- qos-01 (float signal plots, Shannon capacity and sliders) is not part of this model.
- The encoders use unbounded integers, and numpy dtype effects are not modelled: int16 overflow of `abs(-32768)`, the `uint8` casts, the cast of `log2(0) = -inf`. For a zero magnitude the segment is taken as 0, which is what the clamp gives.
- `UlawFields`: for int16 input the bias addition `abs_pcm += 0x84` (qos-03/qos_03/lib/core.py:16) wraps for magnitudes of 32636 and more. The wrapped value is negative, its `log2` is NaN and the code word differs (32700 gives 247 there, 143 here). The model adds the bias on unbounded integers, as for wider input dtypes.
- Constructor default arguments are not modelled; every constructor takes all its settings. The defaults are `capacity=10, transmission_rate=1, tap=None` for a port (qos-02/qos_02/lib/core.py:248-250) and `destination=None, packet_interval=1.0, packet_size=10` for a source (qos-02/qos_02/lib/core.py:112-114).
- The encoders use an integer floor-log2 instead of `np.log2` on floats. The two agree for every magnitude the encoders produce (at most 32900). For very large integers a rounded float `log2` can exceed the floor, but no such magnitude occurs.
