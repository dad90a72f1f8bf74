/**
 * The packet-switch model of qos-02: packets drawn from a shared id counter,
 * switch ports that admit packets into a FIFO under a byte capacity
 * (tail-drop) and serve them one at a time, sinks that stamp and log the
 * packets they terminate, taps that record what passes a port, and sources
 * that build packets and hand them on.
 *
 * The discrete-event scheduler the code runs on is not part of this model.
 * Each coroutine is cut at its suspension points into step methods that take
 * the current virtual time `now`; the store behind a port is a `seq`.
 */
module PacketNetwork {

  /** `BYTES_TO_BITS`: a packet of `size` bytes occupies the link for 8 * size bits. */
  const BytesToBits: int := 8

  datatype Option<T> = None | Some(value: T)

  /** The exceptions the core raises, or lets through from the scheduler. */
  datatype Error =
    | NoDestination   // ValueError: a port or source has no destination
    | ZeroDivision    // ZeroDivisionError: transmission rate 0
    | NegativeDelay   // ValueError: the scheduler refuses a negative timeout

  datatype Result<T> = Ok(value: T) | Err(error: Error)

  /** A port's byte capacity; `None` in the source is `Unbounded`. */
  datatype Capacity = Unbounded | Bytes(limit: int)

  /** Where a port or a source hands its packets: another port or a sink. */
  datatype Destination = ToPort(port: SwitchPort) | ToSink(sink: PacketSink)

  function Objects(dest: Destination): set<object>
  {
    match dest
    case ToPort(port) => {port}
    case ToSink(sink) => {sink}
  }

  function OptionalObjects(dest: Option<Destination>): set<object>
  {
    match dest
    case None => {}
    case Some(d) => Objects(d)
  }

  // ---------------------------------------------------------------------------
  // Sums of packet sizes

  function Sum(xs: seq<int>): int
  {
    if xs == [] then 0 else xs[0] + Sum(xs[1..])
  }

  lemma {:induction false} SumAppend(xs: seq<int>, x: int)
    ensures Sum(xs + [x]) == Sum(xs) + x
  {
    if xs != [] {
      assert (xs + [x])[1..] == xs[1..] + [x];
      SumAppend(xs[1..], x);
    }
  }

  lemma {:induction false} SumNonNegative(xs: seq<int>)
    requires forall i :: 0 <= i < |xs| ==> xs[i] >= 0
    ensures Sum(xs) >= 0
  {
    if xs != [] {
      SumNonNegative(xs[1..]);
    }
  }

  function Sizes(packets: seq<Packet>): (sizes: seq<int>)
    ensures |sizes| == |packets|
    ensures forall i :: 0 <= i < |packets| ==> sizes[i] == packets[i].size
  {
    seq(|packets|, i requires 0 <= i < |packets| => packets[i].size)
  }

  /** Bytes held by a sequence of packets. */
  function Occupancy(packets: seq<Packet>): int
  {
    Sum(Sizes(packets))
  }

  lemma OccupancyAppend(packets: seq<Packet>, p: Packet)
    ensures Occupancy(packets + [p]) == Occupancy(packets) + p.size
  {
    assert Sizes(packets + [p]) == Sizes(packets) + [p.size];
    SumAppend(Sizes(packets), p.size);
  }

  lemma OccupancyPopHead(packets: seq<Packet>)
    requires packets != []
    ensures Occupancy(packets[1..]) == Occupancy(packets) - packets[0].size
  {
    assert Sizes(packets)[1..] == Sizes(packets[1..]);
  }

  // ---------------------------------------------------------------------------
  // Timing

  /**
   * `env.timeout(delay)` issued at `now`: the process resumes at now + delay;
   * a negative delay is refused.
   */
  function Timeout(now: real, delay: real): (r: Result<real>)
    ensures r.Ok? <==> delay >= 0.0
    ensures r.Ok? ==> now <= r.value && r.value - now == delay
  {
    if delay < 0.0 then Err(NegativeDelay) else Ok(now + delay)
  }

  /** `BYTES_TO_BITS * size / transmission_rate`. */
  function TransmissionTime(size: int, rate: real): (r: Result<real>)
    ensures r.Ok? <==> rate != 0.0
    ensures r.Ok? ==> r.value * rate == (BytesToBits * size) as real
  {
    if rate == 0.0 then Err(ZeroDivision) else Ok((BytesToBits * size) as real / rate)
  }

  /** When a transmission started at `now` completes, or why it cannot start. */
  function TransmitDeadline(now: real, size: int, rate: real): Result<real>
  {
    match TransmissionTime(size, rate)
    case Err(e) => Err(e)
    case Ok(delay) => Timeout(now, delay)
  }

  /** On a positive rate a packet of non-negative size always gets a deadline. */
  lemma DeadlineOnPositiveRate(now: real, size: int, rate: real)
    requires rate > 0.0 && size >= 0
    ensures TransmitDeadline(now, size, rate).Ok?
    ensures var t := TransmitDeadline(now, size, rate).value;
      now <= t && (t - now) * rate == (BytesToBits * size) as real
  {
    assert (BytesToBits * size) as real / rate >= 0.0;
  }

  // ---------------------------------------------------------------------------
  // Admission

  /**
   * The tail-drop rule of `process_packet`: no capacity admits everything, a
   * capacity of 0 is falsy and admits everything, any other capacity admits
   * a packet iff the bytes already counted plus its size do not exceed it.
   */
  function Admits(capacity: Capacity, byteCount: int, size: int): (admitted: bool)
    ensures !admitted ==> capacity.Bytes? && capacity.limit != 0
    ensures admitted && capacity.Bytes? && capacity.limit > 0 ==> byteCount + size <= capacity.limit
  {
    match capacity
    case Unbounded => true
    case Bytes(limit) => !(limit != 0 && byteCount + size > limit)
  }

  lemma AdmitsExactly(capacity: Capacity, byteCount: int, size: int)
    ensures capacity.Unbounded? ==> Admits(capacity, byteCount, size)
    ensures capacity == Bytes(0) ==> Admits(capacity, byteCount, size)
    ensures capacity.Bytes? && capacity.limit != 0 ==>
      (Admits(capacity, byteCount, size) <==> byteCount + size <= capacity.limit)
  {
  }

  /** With some bytes already queued, a packet larger than the capacity is dropped. */
  lemma OversizedPacketDropped(limit: int, byteCount: int, size: int)
    requires 0 < limit < size && byteCount >= 0
    ensures !Admits(Bytes(limit), byteCount, size)
  {
  }

  // ---------------------------------------------------------------------------
  // Packets

  /** `Packet.cnt`: the id counter all packets share, starting at 0. */
  class PacketIds {
    var next: nat

    constructor ()
      ensures next == 0
    {
      next := 0;
    }
  }

  class Packet {
    const id: nat
    const size: int
    const creationTime: real
    const source: string
    var sinkId: Option<string>
    var sinkTime: Option<real>

    /** A packet made at `now` takes the next id from the shared counter. */
    constructor (ids: PacketIds, now: real, size: int, source: string)
      modifies ids
      ensures id == old(ids.next) && ids.next == id + 1
      ensures this.size == size && creationTime == now && this.source == source
      ensures sinkId == None && sinkTime == None
    {
      id := ids.next;
      this.size := size;
      creationTime := now;
      this.source := source;
      sinkId := None;
      sinkTime := None;
      new;
      ids.next := ids.next + 1;
    }
  }

  // ---------------------------------------------------------------------------
  // Sinks and taps

  class PacketSink {
    const sinkId: string
    var loggedPackets: seq<Packet>

    constructor (sinkId: string)
      ensures this.sinkId == sinkId && loggedPackets == []
    {
      this.sinkId := sinkId;
      loggedPackets := [];
    }

    /** Terminates a packet: stamps it with this sink and the time, and logs it. */
    method ProcessPacket(packet: Packet, now: real)
      modifies this`loggedPackets, packet`sinkId, packet`sinkTime
      ensures packet.sinkId == Some(sinkId) && packet.sinkTime == Some(now)
      ensures loggedPackets == old(loggedPackets) + [packet]
    {
      packet.sinkId := Some(sinkId);
      packet.sinkTime := Some(now);
      loggedPackets := loggedPackets + [packet];
    }
  }

  class NetworkTap {
    var packetCount: int
    var packetSizes: seq<int>
    var packetTimes: seq<real>

    /** One count, one size and one time per observed packet. */
    ghost predicate Valid()
      reads this
    {
      packetCount == |packetSizes| == |packetTimes|
    }

    constructor ()
      ensures Valid() && packetCount == 0 && packetSizes == [] && packetTimes == []
    {
      packetCount := 0;
      packetSizes := [];
      packetTimes := [];
    }

    /** `total_size`: the bytes of all observed packets. */
    function TotalSize(): (total: int)
      reads this
      ensures (forall i :: 0 <= i < |packetSizes| ==> packetSizes[i] >= 0) ==> total >= 0
    {
      SumNonNegativeIfAll(packetSizes);
      Sum(packetSizes)
    }

    /** Records a packet's size and the time it was seen; the packet is untouched. */
    method TapPacket(packet: Packet, now: real)
      modifies this
      ensures packetCount == old(packetCount) + 1
      ensures packetSizes == old(packetSizes) + [packet.size]
      ensures packetTimes == old(packetTimes) + [now]
      ensures TotalSize() == old(TotalSize()) + packet.size
      ensures old(Valid()) ==> Valid()
    {
      SumAppend(packetSizes, packet.size);
      packetCount := packetCount + 1;
      packetSizes := packetSizes + [packet.size];
      packetTimes := packetTimes + [now];
    }
  }

  lemma SumNonNegativeIfAll(xs: seq<int>)
    ensures (forall i :: 0 <= i < |xs| ==> xs[i] >= 0) ==> Sum(xs) >= 0
  {
    if forall i :: 0 <= i < |xs| ==> xs[i] >= 0 {
      SumNonNegative(xs);
    }
  }

  // ---------------------------------------------------------------------------
  // Delivery to a destination

  /**
   * What `destination.process_packet(packet)` does at `now`: a port admits or
   * drops the packet, a sink stamps and logs it.
   */
  twostate predicate Received(dest: Destination, packet: Packet, now: real)
    reads Objects(dest), packet
  {
    match dest
    case ToPort(port) =>
      port.Admission(packet)
      && unchanged(port`tap, port`destination)
      && packet.sinkId == old(packet.sinkId) && packet.sinkTime == old(packet.sinkTime)
    case ToSink(sink) =>
      packet.sinkId == Some(sink.sinkId) && packet.sinkTime == Some(now)
      && sink.loggedPackets == old(sink.loggedPackets) + [packet]
  }

  /**
   * Hands a packet to a destination. The result is true when the call returned
   * an event, i.e. a port admitted the packet; a sink returns nothing.
   */
  method Deliver(dest: Destination, packet: Packet, now: real) returns (event: bool)
    modifies Objects(dest), packet
    ensures Received(dest, packet, now)
    ensures dest.ToPort? ==> unchanged(dest.port`processing, dest.port`current)
    ensures dest.ToPort? && old(dest.port.Valid()) && packet.size >= 0 ==> dest.port.Valid()
    ensures event == (dest.ToPort? && old(Admits(dest.port.capacity, dest.port.byteCount, packet.size)))
  {
    match dest
    case ToPort(port) =>
      event := port.ProcessPacket(packet);
    case ToSink(sink) =>
      sink.ProcessPacket(packet, now);
      event := false;
  }

  // ---------------------------------------------------------------------------
  // Switch ports

  /** What the server loop of a port does when the queue is looked at. */
  datatype Service =
    | Blocked                               // queue empty: the get stays pending
    | Started(packet: Packet, finish: real) // transmission runs until `finish`
    | Crashed(packet: Packet, error: Error) // the transmit timeout raised

  class SwitchPort {
    const portNo: int
    const capacity: Capacity
    const transmissionRate: real
    var queue: seq<Packet>
    var tap: NetworkTap?
    var destination: Option<Destination>
    var byteCount: int
    var processing: bool
    /** The packet the server loop holds between dequeue and hand-over. */
    var current: Option<Packet>

    /** With a capacity, the byte count is the bytes of the queued packets. */
    ghost predicate Accounted()
      reads this
    {
      capacity.Bytes? ==> byteCount == Occupancy(queue)
    }

    /**
     * The port invariant: the byte count is accounted for and, under a
     * positive capacity, the queued packets have non-negative sizes and
     * occupy at most the capacity.
     */
    ghost predicate Valid()
      reads this
    {
      Accounted()
      && (capacity.Bytes? && capacity.limit > 0 ==>
            byteCount <= capacity.limit
            && forall i :: 0 <= i < |queue| ==> queue[i].size >= 0)
    }

    /** The server loop is parked on the queue's get. */
    predicate Idle()
      reads this
    {
      !processing && current == None
    }

    constructor (portNo: int, capacity: Capacity, transmissionRate: real, tap: NetworkTap?)
      ensures this.portNo == portNo && this.capacity == capacity
      ensures this.transmissionRate == transmissionRate && this.tap == tap
      ensures queue == [] && byteCount == 0 && destination == None && Idle()
      ensures Valid()
    {
      this.portNo := portNo;
      this.capacity := capacity;
      this.transmissionRate := transmissionRate;
      this.tap := tap;
      queue := [];
      destination := None;
      byteCount := 0;
      processing := false;
      current := None;
    }

    /** The effect of admitting or dropping `packet` under the tail-drop rule. */
    twostate predicate Admission(new packet: Packet)
      reads this
    {
      var admitted := Admits(capacity, old(byteCount), packet.size);
      queue == (if admitted then old(queue) + [packet] else old(queue))
      && byteCount == (if admitted && capacity.Bytes? then old(byteCount) + packet.size
                       else old(byteCount))
    }

    /**
     * `process_packet`: appends the packet to the tail of the queue or drops
     * it; the result is true when an event (the queue put) was returned.
     */
    method ProcessPacket(packet: Packet) returns (admitted: bool)
      modifies this`queue, this`byteCount
      ensures admitted == Admits(capacity, old(byteCount), packet.size)
      ensures Admission(packet)
      ensures old(Accounted()) ==> Accounted()
      ensures old(Valid()) && packet.size >= 0 ==> Valid()
    {
      var newCount := byteCount + packet.size;
      if capacity.Unbounded? {
        queue := queue + [packet];
        return true;
      }
      OccupancyAppend(queue, packet);
      if capacity.limit != 0 && newCount > capacity.limit {
        return false;
      }
      byteCount := newCount;
      queue := queue + [packet];
      return true;
    }

    /**
     * The server loop resumes from its get at `now`: it takes the head packet,
     * marks itself processing, subtracts the packet's size, records the packet
     * in the tap and starts the transmission timeout.
     */
    method Dequeue(now: real) returns (service: Service)
      requires Idle()
      modifies this, tap
      ensures tap == old(tap) && destination == old(destination)
      ensures old(queue) == [] ==> service == Blocked && unchanged(this) && (tap != null ==> unchanged(tap))
      ensures old(queue) != [] ==>
        var p := old(queue)[0];
        queue == old(queue)[1..] && processing && byteCount == old(byteCount) - p.size
        && (tap != null ==>
              tap.packetSizes == old(tap.packetSizes) + [p.size]
              && tap.packetTimes == old(tap.packetTimes) + [now]
              && tap.packetCount == old(tap.packetCount) + 1
              && (old(tap.Valid()) ==> tap.Valid()))
        && match TransmitDeadline(now, p.size, transmissionRate)
           case Ok(t) => service == Started(p, t) && current == Some(p)
           case Err(e) => service == Crashed(p, e) && current == None
      ensures old(Accounted()) ==> Accounted()
      ensures old(Valid()) ==> Valid()
    {
      if queue == [] {
        return Blocked;
      }
      var p := queue[0];
      OccupancyPopHead(queue);
      queue := queue[1..];
      processing := true;
      byteCount := byteCount - p.size;
      if tap != null {
        tap.TapPacket(p, now);
      }
      var deadline := TransmitDeadline(now, p.size, transmissionRate);
      match deadline
      case Ok(t) =>
        current := Some(p);
        service := Started(p, t);
      case Err(e) =>
        service := Crashed(p, e);
    }

    /**
     * The transmission timeout has fired at `now`: the packet goes to the
     * destination and the port stops processing; with no destination the
     * loop raises and the port stays as it was.
     */
    method FinishTransmit(now: real) returns (r: Result<bool>)
      requires current.Some?
      modifies this, OptionalObjects(destination), current.value
      ensures old(destination).None? ==> r == Err(NoDestination) && unchanged(this)
      ensures old(destination).Some? ==>
        r.Ok? && !processing && current == None && destination == old(destination) && tap == old(tap)
        && r.value == (old(destination).value.ToPort?
                       && old(Admits(destination.value.port.capacity, destination.value.port.byteCount,
                                     current.value.size)))
        && Received(old(destination).value, old(current).value, now)
        && (old(destination).value.ToPort?
            && old(destination.value.port.Valid() && current.value.size >= 0) ==>
              old(destination).value.port.Valid())
        && (old(destination).value != ToPort(this) ==>
              queue == old(queue) && byteCount == old(byteCount)
              && (old(destination).value.ToPort? ==>
                    unchanged(old(destination).value.port`processing, old(destination).value.port`current)))
    {
      var packet := current.value;
      if destination.None? {
        return Err(NoDestination);
      }
      var dest := destination.value;
      var event := Deliver(dest, packet, now);
      processing := false;
      current := None;
      r := Ok(event);
    }
  }

  /**
   * Under a positive capacity a valid port holds between 0 and `capacity`
   * bytes, and its byte count is exactly what its queue holds.
   */
  lemma OccupancyWithinCapacity(port: SwitchPort)
    requires port.Valid() && port.capacity.Bytes? && port.capacity.limit > 0
    ensures port.byteCount == Occupancy(port.queue)
    ensures 0 <= port.byteCount <= port.capacity.limit
  {
    SumNonNegative(Sizes(port.queue));
  }

  // ---------------------------------------------------------------------------
  // Switches and sources

  /** A switch is only a collection of identically configured ports. */
  class Switch {
    const switchId: string
    const ports: seq<SwitchPort>

    /** Builds `num_ports` ports numbered 0, 1, ... with the same configuration. */
    constructor (switchId: string, numPorts: int, portCapacity: Capacity, portTransmissionRate: real)
      ensures this.switchId == switchId
      ensures |ports| == if numPorts < 0 then 0 else numPorts
      ensures forall i :: 0 <= i < |ports| ==>
        fresh(ports[i]) && ports[i].portNo == i && ports[i].capacity == portCapacity
        && ports[i].transmissionRate == portTransmissionRate && ports[i].tap == null
        && ports[i].queue == [] && ports[i].byteCount == 0
        && ports[i].destination == None && ports[i].Idle()
      ensures forall i, j :: 0 <= i < j < |ports| ==> ports[i] != ports[j]
    {
      this.switchId := switchId;
      var built: seq<SwitchPort> := [];
      var k := 0;
      while k < numPorts
        invariant 0 <= k && |built| == k && (k <= numPorts || k == 0)
        invariant forall i :: 0 <= i < k ==>
          fresh(built[i]) && built[i].portNo == i && built[i].capacity == portCapacity
          && built[i].transmissionRate == portTransmissionRate && built[i].tap == null
          && built[i].queue == [] && built[i].byteCount == 0
          && built[i].destination == None && built[i].Idle()
        invariant forall i, j :: 0 <= i < j < k ==> built[i] != built[j]
      {
        var port := new SwitchPort(k, portCapacity, portTransmissionRate, null);
        built := built + [port];
        k := k + 1;
      }
      ports := built;
    }
  }

  /**
   * `int(packet_size)` for a fixed size given as a number: the fractional
   * part is cut off toward zero.
   */
  function FixedPacketSize(size: real): (bytes: int)
    ensures 0.0 <= size ==> 0 <= bytes && bytes as real <= size < bytes as real + 1.0
    ensures size < 0.0 ==> bytes <= 0 && bytes as real - 1.0 < size <= bytes as real
  {
    if size >= 0.0 then size.Floor else -((-size).Floor)
  }

  /**
   * A source's `packet_size`: a fixed number, or a callable whose result is
   * drawn anew each round.
   */
  datatype SizeSetting = FixedSize(bytes: real) | DrawnSize

  /**
   * The size of one round's packet: a fixed size cut toward zero, or `drawn`,
   * the callable's result.
   */
  function RoundSize(setting: SizeSetting, drawn: int): (size: int)
    ensures setting.DrawnSize? ==> size == drawn
    ensures setting.FixedSize? && 0.0 <= setting.bytes ==>
      0 <= size && size as real <= setting.bytes < size as real + 1.0
    ensures setting.FixedSize? && setting.bytes < 0.0 ==>
      size <= 0 && size as real - 1.0 < setting.bytes <= size as real
  {
    match setting
    case FixedSize(bytes) => FixedPacketSize(bytes)
    case DrawnSize => drawn
  }

  class PacketSource {
    const sourceId: string
    const packetSize: SizeSetting
    var destination: Option<Destination>

    constructor (sourceId: string, destination: Option<Destination>, packetSize: SizeSetting)
      ensures this.sourceId == sourceId && this.destination == destination
      ensures this.packetSize == packetSize
    {
      this.sourceId := sourceId;
      this.destination := destination;
      this.packetSize := packetSize;
    }

    /**
     * `generate_packet` after its interval has elapsed at `now`: the size of
     * this round is the fixed size cut to an int, or `drawn`, the callable's
     * result; builds a packet and hands it to the destination, or raises when
     * there is none (no id is drawn then).
     */
    method GeneratePacket(ids: PacketIds, now: real, drawn: int) returns (r: Result<Packet>)
      modifies ids, OptionalObjects(destination)
      ensures destination == old(destination)
      ensures destination.None? ==> r == Err(NoDestination) && ids.next == old(ids.next)
      ensures destination.Some? ==>
        r.Ok? && fresh(r.value) && r.value.id == old(ids.next) && ids.next == old(ids.next) + 1
        && r.value.size == RoundSize(packetSize, drawn)
        && (packetSize.FixedSize? && 0.0 <= packetSize.bytes ==> 0 <= r.value.size)
        && r.value.creationTime == now && r.value.source == sourceId
        && match destination.value
           case ToPort(port) =>
             port.Admission(r.value)
             && unchanged(port`tap, port`destination, port`processing, port`current)
             && (old(port.Valid()) && r.value.size >= 0 ==> port.Valid())
             && r.value.sinkId == None && r.value.sinkTime == None
           case ToSink(sink) =>
             r.value.sinkId == Some(sink.sinkId) && r.value.sinkTime == Some(now)
             && sink.loggedPackets == old(sink.loggedPackets) + [r.value]
    {
      if destination.None? {
        return Err(NoDestination);
      }
      var packet := new Packet(ids, now, RoundSize(packetSize, drawn), sourceId);
      var _ := Deliver(destination.value, packet, now);
      r := Ok(packet);
    }
  }
}
