/**
 One end at a time of a data pipe: the state each dispatcher keeps, and what every call does to
 that state and to the shared ring.  The dispatcher classes are proved against these functions, and
 the two-party protocol is built from them.
 */
module DataPipe {
  import opened Basics
  import opened RingMath
  import opened Division

  const U32_RANGE: nat := 0x1_0000_0000

  /** `CheckFailed` stands for the end of the process at a CHECK. */
  datatype MojoResult = Ok | InvalidArgument | Busy | FailedPrecondition | OutOfRange | ShouldWait | CheckFailed

  datatype Options = Options(capacity: nat, elementBytes: nat) {
    predicate Valid() { 0 < elementBytes <= capacity < U32_RANGE }
  }

  datatype Producer = Producer(
    writeOffset: nat,
    availableCapacity: nat,
    inTwoPhaseWrite: bool,
    inTransit: bool,
    hasRegion: bool,
    isClosed: bool,
    transferred: bool,
    peerClosed: bool,
    peerRemote: bool)

  datatype Consumer = Consumer(
    readOffset: nat,
    bytesAvailable: nat,
    inTwoPhaseRead: bool,
    twoPhaseMaxBytesRead: nat,
    newDataAvailable: bool,
    inTransit: bool,
    hasRegion: bool,
    isClosed: bool,
    transferred: bool,
    peerClosed: bool,
    peerRemote: bool)

  function NewProducer(o: Options): Producer {
    Producer(0, o.capacity, false, false, true, false, false, false, false)
  }

  function NewConsumer(): Consumer {
    Consumer(0, 0, false, 0, false, false, true, false, false, false, false)
  }

  predicate ProducerInRange(o: Options, p: Producer) {
    o.Valid() && p.writeOffset < o.capacity && p.availableCapacity <= o.capacity
  }

  predicate ConsumerInRange(o: Options, c: Consumer) {
    && o.Valid() && c.readOffset < o.capacity && c.bytesAvailable <= o.capacity
    && c.twoPhaseMaxBytesRead <= o.capacity
  }

  // ---- the shared ring ----

  /** `data` written into the ring from `offset` on, continuing at the front after the end. */
  function Stored(ring: seq<byte>, offset: nat, data: seq<byte>): (r: seq<byte>)
    requires offset < |ring| && |data| <= |ring|
    ensures |r| == |ring|
  {
    seq(|ring|, i requires 0 <= i < |ring| =>
      var k := if offset <= i then i - offset else i + |ring| - offset;
      if k < |data| then data[k] else ring[i])
  }

  /** The `n` bytes found in the ring from `offset` on, continuing at the front after the end. */
  function Loaded(ring: seq<byte>, offset: nat, n: nat): (r: seq<byte>)
    requires offset < |ring| && n <= |ring|
    ensures |r| == n
  {
    seq(n, k requires 0 <= k < n =>
      ring[if offset + k < |ring| then offset + k else offset + k - |ring|])
  }

  /** Offsets are uint32: the sum wraps before the remainder is taken. */
  function NextOffset(offset: nat, n: nat, capacity: nat): (r: nat)
    requires 0 < capacity
    ensures r < capacity
  {
    (offset + n) % U32_RANGE % capacity
  }

  /** Every offset and every count of a pipe is a multiple of this. */
  function Grain(o: Options): (r: nat)
    requires o.Valid()
    ensures 0 < r
  {
    GcdDivides(o.capacity, o.elementBytes);
    Gcd(o.capacity, o.elementBytes)
  }

  /** The most bytes one call can move: it takes whole elements, a 32-bit size, and is cut at the capacity. */
  function LargestCount(o: Options): nat
    requires o.Valid()
  {
    Min(o.capacity, (U32_RANGE - 1) / o.elementBytes * o.elementBytes)
  }

  /** The last offset a pipe can reach and the most one call can move stay below 2^32. */
  predicate Exact(o: Options) {
    o.Valid() && o.capacity - Grain(o) + LargestCount(o) < U32_RANGE
  }

  lemma GrainDivides(o: Options)
    requires o.Valid()
    ensures 0 < Grain(o) <= o.elementBytes <= o.capacity
    ensures Whole(o.capacity, Grain(o)) && Whole(o.elementBytes, Grain(o))
  {
    GcdDivides(o.capacity, o.elementBytes);
    WholeGap(0, o.elementBytes, Grain(o));
  }

  /** A count that a call was asked for in whole elements, and that was cut somewhere, is no larger. */
  lemma CountFits(o: Options, asked: nat, n: nat)
    requires o.Valid() && Whole(asked, o.elementBytes) && asked < U32_RANGE && n <= asked && n <= o.capacity
    ensures n <= LargestCount(o)
  {
    var (e, q, last) := (o.elementBytes, asked / o.elementBytes, (U32_RANGE - 1) / o.elementBytes);
    Quotient(asked, e);
    assert U32_RANGE - 1 == last * e + (U32_RANGE - 1) % e;
    assert (last + 1) * e == last * e + e;
    if q > last {
      Multiply(last + 1, q, e);
    } else {
      Multiply(q, last, e);
    }
  }

  lemma SumStaysBelow(o: Options, offset: nat, n: nat)
    requires Exact(o) && Whole(offset, Grain(o)) && offset < o.capacity && n <= LargestCount(o)
    ensures offset + n < U32_RANGE && NextOffset(offset, n, o.capacity) == (offset + n) % o.capacity
  {
    GrainDivides(o);
    WholeGap(offset, o.capacity, Grain(o));
    DivModUnique(offset + n, U32_RANGE, 0, offset + n);
  }

  /** The offset update is exact for every offset and count a pipe can hold if and only if the sums stay below 2^32. */
  lemma OffsetExactIff(o: Options)
    requires o.Valid()
    ensures Exact(o) <==>
      forall offset: nat, n: nat | offset < o.capacity && Whole(offset, Grain(o)) && n <= LargestCount(o) ::
        NextOffset(offset, n, o.capacity) == (offset + n) % o.capacity
  {
    GrainDivides(o);
    if Exact(o) {
      forall offset: nat, n: nat | offset < o.capacity && Whole(offset, Grain(o)) && n <= LargestCount(o)
        ensures NextOffset(offset, n, o.capacity) == (offset + n) % o.capacity
      {
        SumStaysBelow(o, offset, n);
      }
    } else {
      var (offset, n) := (o.capacity - Grain(o), LargestCount(o));
      WholeSum(o.capacity, Grain(o), Grain(o));
      var wrapped := offset + n - U32_RANGE;
      DivModUnique(offset + n, U32_RANGE, 1, wrapped);
      DivModUnique(wrapped, o.capacity, 0, wrapped);
      DivModUnique(offset + n, o.capacity, 1, offset + n - o.capacity);
      assert NextOffset(offset, n, o.capacity) != (offset + n) % o.capacity;
    }
  }

  /** Up to 2^31 bytes are always exact; with whole elements the limit is `2 * capacity - elementBytes < 2^32`. */
  lemma ExactCapacities(o: Options)
    requires o.Valid()
    ensures o.capacity <= 0x8000_0000 ==> Exact(o)
    ensures Whole(o.capacity, o.elementBytes) ==>
      (Exact(o) <==> 2 * o.capacity - o.elementBytes < U32_RANGE)
  {
    GrainDivides(o);
    if Whole(o.capacity, o.elementBytes) {
      GcdOfMultiple(o.capacity, o.elementBytes);
      CountFits(o, o.capacity, o.capacity);
    }
  }

  // ---- producer calls ----

  datatype WriteOutcome = WriteOutcome(result: MojoResult, p: Producer, ring: seq<byte>, count: nat)

  function WriteData(o: Options, p: Producer, ring: seq<byte>, data: seq<byte>, allOrNone: bool): WriteOutcome
    requires ProducerInRange(o, p) && |ring| == o.capacity
  {
    if !p.hasRegion || p.inTransit then WriteOutcome(InvalidArgument, p, ring, 0)
    else if p.inTwoPhaseWrite then WriteOutcome(Busy, p, ring, 0)
    else if p.peerClosed then WriteOutcome(FailedPrecondition, p, ring, 0)
    else if |data| % o.elementBytes != 0 then WriteOutcome(InvalidArgument, p, ring, 0)
    else if |data| == 0 then WriteOutcome(Ok, p, ring, 0)
    else if allOrNone && |data| > p.availableCapacity then WriteOutcome(OutOfRange, p, ring, 0)
    else
      var n := Min(|data|, p.availableCapacity);
      if n == 0 then WriteOutcome(ShouldWait, p, ring, 0)
      else WriteOutcome(Ok, CommitWrite(o, p, n), Stored(ring, p.writeOffset, data[..n]), n)
  }

  function CommitWrite(o: Options, p: Producer, n: nat): Producer
    requires ProducerInRange(o, p) && n <= p.availableCapacity
  {
    p.(availableCapacity := p.availableCapacity - n,
       writeOffset := NextOffset(p.writeOffset, n, o.capacity))
  }

  /** The second component is the number of bytes exposed at `writeOffset` on success. */
  function BeginWriteData(o: Options, p: Producer): (MojoResult, Producer, nat)
    requires ProducerInRange(o, p)
  {
    if !p.hasRegion || p.inTransit then (InvalidArgument, p, 0)
    else if p.inTwoPhaseWrite then (Busy, p, 0)
    else if p.peerClosed then (FailedPrecondition, p, 0)
    else if p.availableCapacity == 0 then (ShouldWait, p, 0)
    else (Ok, p.(inTwoPhaseWrite := true), Min(o.capacity - p.writeOffset, p.availableCapacity))
  }

  /**
   `EndWriteData` up to the point where it drops the lock to notify the peer: the flag
   `inTwoPhaseWrite` is cleared only afterwards, unless the call is refused.
   */
  function EndWriteData(o: Options, p: Producer, n: nat): (MojoResult, Producer)
    requires ProducerInRange(o, p) && n < U32_RANGE
  {
    if p.isClosed || p.inTransit then (InvalidArgument, p)
    else if !p.inTwoPhaseWrite then (FailedPrecondition, p)
    else if n > p.availableCapacity || n % o.elementBytes != 0 || (p.writeOffset + n) % U32_RANGE > o.capacity then
      (InvalidArgument, p.(inTwoPhaseWrite := false))
    else (Ok, CommitWrite(o, p, n))
  }

  // ---- consumer calls ----

  datatype ReadFlags = ReadFlags(query: bool, peek: bool, discard: bool, allOrNone: bool)

  /** `count` is the value left in `*num_bytes`, `data` what was copied out, `taken` what left the pipe. */
  datatype ReadOutcome = ReadOutcome(result: MojoResult, c: Consumer, data: seq<byte>, count: nat, taken: nat)

  function ReadData(o: Options, c: Consumer, ring: seq<byte>, flags: ReadFlags, numBytes: nat): ReadOutcome
    requires ConsumerInRange(o, c) && |ring| == o.capacity
  {
    if !c.hasRegion || c.inTransit then ReadOutcome(InvalidArgument, c, [], numBytes, 0)
    else if c.inTwoPhaseRead then ReadOutcome(Busy, c, [], numBytes, 0)
    else
      var c1 := c.(newDataAvailable := false);
      if flags.query then
        if flags.peek || flags.discard then ReadOutcome(InvalidArgument, c1, [], numBytes, 0)
        else ReadOutcome(Ok, c1, [], c.bytesAvailable, 0)
      else if flags.discard && flags.peek then ReadOutcome(InvalidArgument, c1, [], numBytes, 0)
      else if numBytes % o.elementBytes != 0 then ReadOutcome(InvalidArgument, c1, [], numBytes, 0)
      else if flags.allOrNone && numBytes > c.bytesAvailable then
        ReadOutcome(if c.peerClosed then FailedPrecondition else OutOfRange, c1, [], numBytes, 0)
      else
        var n := Min(numBytes, c.bytesAvailable);
        if n == 0 then ReadOutcome(if c.peerClosed then FailedPrecondition else ShouldWait, c1, [], numBytes, 0)
        else
          var data := if flags.discard then [] else Loaded(ring, c.readOffset, n);
          if flags.discard || !flags.peek then ReadOutcome(Ok, CommitRead(o, c1, n), data, n, n)
          else ReadOutcome(Ok, c1, data, n, 0)
  }

  function CommitRead(o: Options, c: Consumer, n: nat): Consumer
    requires ConsumerInRange(o, c) && n <= c.bytesAvailable
  {
    c.(bytesAvailable := c.bytesAvailable - n,
       readOffset := NextOffset(c.readOffset, n, o.capacity))
  }

  function BeginReadData(o: Options, c: Consumer): (MojoResult, Consumer, nat)
    requires ConsumerInRange(o, c)
  {
    if !c.hasRegion || c.inTransit then (InvalidArgument, c, 0)
    else if c.inTwoPhaseRead then (Busy, c, 0)
    else if c.bytesAvailable == 0 then
      (if c.peerClosed then FailedPrecondition else ShouldWait, c.(newDataAvailable := false), 0)
    else
      var n := Min(c.bytesAvailable, o.capacity - c.readOffset);
      (Ok, c.(newDataAvailable := false, inTwoPhaseRead := true, twoPhaseMaxBytesRead := n), n)
  }

  /**
   `EndReadData` up to the point where it drops the lock to notify the peer.  An end that was closed in
   the middle of a two-phase read fails a CHECK.  The count is subtracted as a uint32.
   */
  function EndReadData(o: Options, c: Consumer, n: nat): (MojoResult, Consumer)
    requires ConsumerInRange(o, c) && n < U32_RANGE
  {
    if !c.inTwoPhaseRead then (FailedPrecondition, c)
    else if c.inTransit then (InvalidArgument, c)
    else if !c.hasRegion then (CheckFailed, c)
    else if n > c.twoPhaseMaxBytesRead || n % o.elementBytes != 0 then (InvalidArgument, EndReadReturn(c))
    else
      (Ok, c.(bytesAvailable := (c.bytesAvailable + U32_RANGE - n) % U32_RANGE,
              readOffset := NextOffset(c.readOffset, n, o.capacity)))
  }

  /** Without underflow ending a read is a commit like any other. */
  lemma EndReadCommits(o: Options, c: Consumer, n: nat)
    requires ConsumerInRange(o, c) && n < U32_RANGE && EndReadData(o, c, n).0.Ok? && n <= c.bytesAvailable
    ensures EndReadData(o, c, n).1 == CommitRead(o, c, n)
  {
    DivModUnique(c.bytesAvailable + U32_RANGE - n, U32_RANGE, 1, c.bytesAvailable - n);
  }

  function EndReadReturn(c: Consumer): Consumer {
    c.(inTwoPhaseRead := false, twoPhaseMaxBytesRead := 0)
  }

  // ---- control messages ----

  datatype ControlMessage = DataWasWritten(n: nat) | DataWasRead(n: nat) | Malformed

  /** What the control port reports: whether messages can still come, those that arrived, what follows them. */
  datatype PortView = PortView(receiving: bool, peerRemote: bool, messages: seq<ControlMessage>, closedAfter: bool)

  /** The count after a drain, whether the peer is now taken to be closed, and whether the drain ran to its end. */
  datatype Drained = Drained(total: nat, peerClosed: bool, complete: bool)

  function DrainReads(capacity: nat, available: nat, messages: seq<ControlMessage>): Drained
    decreases messages
  {
    if messages == [] then Drained(available, false, true)
    else match messages[0]
      case DataWasRead(n) =>
        if available + n > capacity then Drained(available, false, false)
        else DrainReads(capacity, available + n, messages[1..])
      case _ => Drained(available, true, false)
  }

  function DrainWrites(capacity: nat, available: nat, messages: seq<ControlMessage>): Drained
    decreases messages
  {
    if messages == [] then Drained(available, false, true)
    else match messages[0]
      case DataWasWritten(n) =>
        if available + n > capacity then Drained(available, true, false)
        else DrainWrites(capacity, available + n, messages[1..])
      case _ => Drained(available, true, false)
  }

  function UpdateProducer(o: Options, p: Producer, port: PortView): Producer {
    var p1 := p.(peerRemote := port.peerRemote);
    if !port.receiving then p1.(peerClosed := true)
    else if port.messages != [] && !p.inTransit then
      var d := DrainReads(o.capacity, p.availableCapacity, port.messages);
      p1.(availableCapacity := d.total,
          peerClosed := p.peerClosed || d.peerClosed || (d.complete && port.closedAfter))
    else p1
  }

  function UpdateConsumer(o: Options, c: Consumer, port: PortView): Consumer {
    var c1 := c.(peerRemote := port.peerRemote);
    if !port.receiving then c1.(peerClosed := true)
    else if port.messages != [] && !c.inTransit then
      var d := DrainWrites(o.capacity, c.bytesAvailable, port.messages);
      c1.(bytesAvailable := d.total,
          newDataAvailable := c.newDataAvailable || d.total != c.bytesAvailable,
          peerClosed := c.peerClosed || d.peerClosed || (d.complete && port.closedAfter))
    else c1
  }

  function Reads(ns: seq<nat>): (r: seq<ControlMessage>)
    ensures |r| == |ns|
  {
    seq(|ns|, i requires 0 <= i < |ns| => DataWasRead(ns[i]))
  }

  function Writes(ns: seq<nat>): (r: seq<ControlMessage>)
    ensures |r| == |ns|
  {
    seq(|ns|, i requires 0 <= i < |ns| => DataWasWritten(ns[i]))
  }

  /** As long as the counts fit, draining adds them all and meets no error branch. */
  lemma {:induction false} DrainReadsSums(capacity: nat, available: nat, ns: seq<nat>)
    requires available + Sum(ns) <= capacity
    ensures DrainReads(capacity, available, Reads(ns)) == Drained(available + Sum(ns), false, true)
    decreases ns
  {
    if ns != [] {
      assert Reads(ns)[1..] == Reads(ns[1..]);
      DrainReadsSums(capacity, available + ns[0], ns[1..]);
    }
  }

  lemma {:induction false} DrainWritesSums(capacity: nat, available: nat, ns: seq<nat>)
    requires available + Sum(ns) <= capacity
    ensures DrainWrites(capacity, available, Writes(ns)) == Drained(available + Sum(ns), false, true)
    decreases ns
  {
    if ns != [] {
      assert Writes(ns)[1..] == Writes(ns[1..]);
      DrainWritesSums(capacity, available + ns[0], ns[1..]);
    }
  }

  /** A message the producer's drain stops at: it is taken for closure unless it is only a count that is too large. */
  lemma {:induction false} DrainReadsStops(
    capacity: nat, available: nat, ns: seq<nat>, bad: ControlMessage, rest: seq<ControlMessage>)
    requires available + Sum(ns) <= capacity
    requires bad.DataWasRead? ==> available + Sum(ns) + bad.n > capacity
    ensures DrainReads(capacity, available, Reads(ns) + [bad] + rest)
         == Drained(available + Sum(ns), !bad.DataWasRead?, false)
    decreases ns
  {
    var all := Reads(ns) + [bad] + rest;
    if ns == [] {
      assert all[0] == bad;
    } else {
      assert all[0] == DataWasRead(ns[0]) && all[1..] == Reads(ns[1..]) + [bad] + rest;
      DrainReadsStops(capacity, available + ns[0], ns[1..], bad, rest);
    }
  }

  /** A message the consumer's drain stops at is always taken for closure. */
  lemma {:induction false} DrainWritesStops(
    capacity: nat, available: nat, ns: seq<nat>, bad: ControlMessage, rest: seq<ControlMessage>)
    requires available + Sum(ns) <= capacity
    requires bad.DataWasWritten? ==> available + Sum(ns) + bad.n > capacity
    ensures DrainWrites(capacity, available, Writes(ns) + [bad] + rest) == Drained(available + Sum(ns), true, false)
    decreases ns
  {
    var all := Writes(ns) + [bad] + rest;
    if ns == [] {
      assert all[0] == bad;
    } else {
      assert all[0] == DataWasWritten(ns[0]) && all[1..] == Writes(ns[1..]) + [bad] + rest;
      DrainWritesStops(capacity, available + ns[0], ns[1..], bad, rest);
    }
  }

  // ---- transit ----

  datatype SerializedState = SerializedState(o: Options, offset: nat, count: nat, peerClosed: bool)

  function BeginProducerTransit(p: Producer): (bool, Producer) {
    if p.inTransit then (false, p) else (!p.inTwoPhaseWrite, p.(inTransit := !p.inTwoPhaseWrite))
  }

  function BeginConsumerTransit(c: Consumer): (bool, Consumer) {
    if c.inTransit then (false, c) else (!c.inTwoPhaseRead, c.(inTransit := !c.inTwoPhaseRead))
  }

  /** `EndSerialize` moves the region out of the dispatcher. */
  function SerializeProducer(o: Options, p: Producer): (SerializedState, Producer) {
    (SerializedState(o, p.writeOffset, p.availableCapacity, p.peerClosed), p.(hasRegion := false))
  }

  function SerializeConsumer(o: Options, c: Consumer): (SerializedState, Consumer) {
    (SerializedState(o, c.readOffset, c.bytesAvailable, c.peerClosed), c.(hasRegion := false))
  }

  predicate SerializedInRange(s: SerializedState) {
    && s.o.capacity != 0 && s.o.elementBytes != 0 && s.o.elementBytes <= s.o.capacity
    && s.offset < s.o.capacity && s.count <= s.o.capacity
  }

  /** `Deserialize` before its final look at the control port. */
  function DeserializeProducer(s: SerializedState): Option<Producer> {
    if SerializedInRange(s) then
      Some(NewProducer(s.o).(writeOffset := s.offset, availableCapacity := s.count, peerClosed := s.peerClosed))
    else None
  }

  function DeserializeConsumer(s: SerializedState): Option<Consumer> {
    if SerializedInRange(s) then
      Some(NewConsumer().(readOffset := s.offset, bytesAvailable := s.count,
                          newDataAvailable := s.count > 0, peerClosed := s.peerClosed))
    else None
  }

  function CompleteProducerTransit(p: Producer): Producer {
    p.(inTransit := false, transferred := true, isClosed := true, hasRegion := false)
  }

  function CompleteConsumerTransit(c: Consumer): Consumer {
    c.(inTransit := false, transferred := true, isClosed := true, hasRegion := false)
  }

  // ---- signals ----

  datatype Signal = Readable | Writable | NewDataReadable | PeerClosed | PeerRemote

  datatype Signals = Signals(satisfied: set<Signal>, satisfiable: set<Signal>)

  function If(b: bool, x: Signal): set<Signal> { if b then {x} else {} }

  function ProducerSignals(p: Producer): Signals {
    if !p.peerClosed then
      Signals(
        If(!p.inTwoPhaseWrite && p.hasRegion && p.availableCapacity > 0, Writable) + If(p.peerRemote, PeerRemote),
        {Writable, PeerRemote, PeerClosed})
    else Signals({PeerClosed}, {PeerClosed})
  }

  function ConsumerSignals(c: Consumer): Signals {
    var hasData := c.hasRegion && c.bytesAvailable > 0;
    Signals(
      If(hasData && !c.inTwoPhaseRead, Readable)
        + If(hasData && !c.inTwoPhaseRead && c.newDataAvailable, NewDataReadable)
        + If(c.peerClosed, PeerClosed)
        + If(!c.peerClosed && c.peerRemote, PeerRemote),
      If(hasData || (!c.peerClosed && c.hasRegion), Readable)
        + If(c.hasRegion && (c.newDataAvailable || !c.peerClosed), NewDataReadable)
        + If(!c.peerClosed, PeerRemote)
        + {PeerClosed})
  }

  /** A signal is never reported satisfied without also being reported satisfiable. */
  lemma SatisfiedIsSatisfiable(p: Producer, c: Consumer)
    ensures ProducerSignals(p).satisfied <= ProducerSignals(p).satisfiable
    ensures ConsumerSignals(c).satisfied <= ConsumerSignals(c).satisfiable
  {
  }
}
