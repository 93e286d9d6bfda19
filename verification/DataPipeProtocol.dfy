/**
 A data pipe as a two-party protocol.  The producer and the consumer share the ring and otherwise
 know of each other only through two FIFO queues of counts.  Each call is a step that updates its own
 end under that end's lock; the notification it owes the peer is a separate, later step, because the
 dispatchers drop their lock before sending it.  User code writes into a buffer exposed by a two-phase
 write one byte at a time, between any other steps.
 */
module DataPipeProtocol {
  import opened Basics
  import opened RingMath
  import opened Division
  import opened DataPipe

  datatype Pipe = Pipe(
    o: Options,
    ring: seq<byte>,
    p: Producer,
    c: Consumer,
    exposed: nat,                        // bytes user code may currently write
    exposedAt: nat,                      // where in the ring they are
    endingWrites: nat,                   // EndWriteData calls that have dropped their lock
    endingReads: nat,                    // EndReadData calls that have dropped their lock
    unsentWrites: seq<nat>,              // DATA_WAS_WRITTEN counts owed but not yet sent
    unsentReads: seq<nat>,               // DATA_WAS_READ counts owed but not yet sent
    toConsumer: seq<nat>,                // DATA_WAS_WRITTEN counts on the port
    toProducer: seq<nat>,                // DATA_WAS_READ counts on the port
    carriedProducer: Option<SerializedState>,
    carriedConsumer: Option<SerializedState>,
    // history, read by no step
    produced: seq<byte>,
    consumed: seq<byte>,
    lostWrites: nat,                     // counts whose port was closed or gone when they were sent
    lostReads: nat,
    crashed: bool)                       // a CHECK has failed

  predicate ProducerPortClosed(s: Pipe) { s.p.isClosed && !s.p.transferred }

  predicate ConsumerPortClosed(s: Pipe) { s.c.isClosed && !s.c.transferred }

  predicate BothOpen(s: Pipe) { !ProducerPortClosed(s) && !ConsumerPortClosed(s) }

  /** A pipe as `CreateDataPipe` leaves it. */
  predicate Created(s: Pipe) {
    && s.o.Valid() && |s.ring| == s.o.capacity
    && s == Pipe(s.o, s.ring, NewProducer(s.o), NewConsumer(), 0, 0, 0, 0,
                 [], [], [], [], None, None, [], [], 0, 0, false)
  }

  predicate Init(s: Pipe) { Created(s) && Exact(s.o) }

  /** The stages of sending an end to another process; some end with a look at `k` messages of the port. */
  datatype Transit =
    | BeginTransit
    | CancelTransit(k: nat, remote: bool)
    | EndSerialize
    | CompleteTransit
    | Deserialize(k: nat, remote: bool)

  datatype Step =
    | WriteStep(data: seq<byte>, allOrNone: bool)
    | BeginWriteStep
    | PokeStep(i: nat, b: byte)
    | EndWriteStep(n: nat)
    | EndWriteReturnStep
    | SendWriteStep(i: nat)
    | UpdateProducerStep(k: nat, remote: bool)
    | ProducerTransitStep(t: Transit)
    | CloseProducerStep
    | ReadStep(flags: ReadFlags, n: nat)
    | BeginReadStep
    | EndReadStep(n: nat)
    | EndReadReturnStep
    | SendReadStep(i: nat)
    | UpdateConsumerStep(k: nat, remote: bool)
    | ConsumerTransitStep(t: Transit)
    | CloseConsumerStep

  // ---- what may happen ----

  /** The ranges in which the calls make sense: beyond them the code copies past the ends of the ring. */
  predicate InRange(s: Pipe) {
    ProducerInRange(s.o, s.p) && ConsumerInRange(s.o, s.c) && |s.ring| == s.o.capacity
  }

  /** Only an end registered in the handle table starts transit, so it is not closed. */
  predicate ProducerTransitEnabled(s: Pipe, t: Transit) {
    match t
    case BeginTransit => !s.p.isClosed
    case CancelTransit(_, _) => s.p.inTransit
    case EndSerialize => s.p.inTransit
    case CompleteTransit => s.p.inTransit && s.carriedProducer.Some?
    case Deserialize(k, _) => s.p.transferred && s.carriedProducer.Some? && k <= |s.toProducer|
  }

  predicate ConsumerTransitEnabled(s: Pipe, t: Transit) {
    match t
    case BeginTransit => !s.c.isClosed
    case CancelTransit(k, _) => s.c.inTransit && k <= |s.toConsumer|
    case EndSerialize => s.c.inTransit
    case CompleteTransit => s.c.inTransit && s.carriedConsumer.Some?
    case Deserialize(k, _) => s.c.transferred && s.carriedConsumer.Some? && k <= |s.toConsumer|
  }

  /** A transferred end ignores its port; any other may be called back, even after it was closed. */
  predicate Enabled(s: Pipe, step: Step) {
    && InRange(s) && !s.crashed
    && match step
      case WriteStep(data, _) => |data| < U32_RANGE
      case PokeStep(i, _) => i < s.exposed && s.exposedAt + i < |s.ring|
      case EndWriteStep(n) => n < U32_RANGE
      case EndWriteReturnStep => s.endingWrites > 0
      case SendWriteStep(i) => i < |s.unsentWrites|
      case UpdateProducerStep(k, _) => k <= |s.toProducer| && !s.p.transferred
      case ProducerTransitStep(t) => ProducerTransitEnabled(s, t)
      case ReadStep(_, n) => n < U32_RANGE
      case EndReadStep(n) => n < U32_RANGE
      case EndReadReturnStep => s.endingReads > 0
      case SendReadStep(i) => i < |s.unsentReads|
      case UpdateConsumerStep(k, _) => k <= |s.toConsumer| && !s.c.transferred
      case ConsumerTransitStep(t) => ConsumerTransitEnabled(s, t)
      case _ => true
  }

  /** Callers do not end a two-phase operation while a call that ends one is still under way at that end. */
  predicate Orderly(s: Pipe, step: Step) {
    (step.EndWriteStep? ==> s.endingWrites == 0) && (step.EndReadStep? ==> s.endingReads == 0)
  }

  /**
   The control port as an end sees it when `k` of the queued counts have arrived; its own closed port says nothing.
   */
  function ProducerPort(s: Pipe, k: nat, remote: bool): PortView
    requires k <= |s.toProducer|
  {
    var closed := ProducerPortClosed(s);
    PortView(!closed && !(ConsumerPortClosed(s) && s.toProducer == []), remote && !closed, Reads(s.toProducer[..k]),
             ConsumerPortClosed(s) && k == |s.toProducer|)
  }

  function ConsumerPort(s: Pipe, k: nat, remote: bool): PortView
    requires k <= |s.toConsumer|
  {
    var closed := ConsumerPortClosed(s);
    PortView(!closed && !(ProducerPortClosed(s) && s.toConsumer == []), remote && !closed, Writes(s.toConsumer[..k]),
             ProducerPortClosed(s) && k == |s.toConsumer|)
  }

  /** A send on a closed port, or to a closed peer, is dropped. */
  function SendWrite(s: Pipe, i: nat): Pipe
    requires i < |s.unsentWrites|
  {
    var s1 := s.(unsentWrites := s.unsentWrites[..i] + s.unsentWrites[i + 1..]);
    if BothOpen(s) then s1.(toConsumer := s.toConsumer + [s.unsentWrites[i]])
    else s1.(lostWrites := s.lostWrites + s.unsentWrites[i])
  }

  function SendRead(s: Pipe, i: nat): Pipe
    requires i < |s.unsentReads|
  {
    var s1 := s.(unsentReads := s.unsentReads[..i] + s.unsentReads[i + 1..]);
    if BothOpen(s) then s1.(toProducer := s.toProducer + [s.unsentReads[i]])
    else s1.(lostReads := s.lostReads + s.unsentReads[i])
  }

  function Write(s: Pipe, data: seq<byte>, allOrNone: bool): Pipe
    requires InRange(s)
  {
    var out := WriteData(s.o, s.p, s.ring, data, allOrNone);
    if out.count == 0 then s.(p := out.p)
    else s.(p := out.p, ring := out.ring, unsentWrites := s.unsentWrites + [out.count],
            produced := s.produced + data[..out.count])
  }

  function EndWrite(s: Pipe, n: nat): Pipe
    requires InRange(s) && n < U32_RANGE
  {
    var (r, p1) := EndWriteData(s.o, s.p, n);
    if r.Ok? then
      s.(p := p1, exposed := 0, endingWrites := s.endingWrites + 1, unsentWrites := s.unsentWrites + [n],
         produced := s.produced + Loaded(s.ring, s.p.writeOffset, n))
    else s.(p := p1, exposed := if p1.inTwoPhaseWrite then s.exposed else 0)
  }

  function Read(s: Pipe, flags: ReadFlags, n: nat): Pipe
    requires InRange(s)
  {
    var out := ReadData(s.o, s.c, s.ring, flags, n);
    if out.taken == 0 then s.(c := out.c)
    else s.(c := out.c, unsentReads := s.unsentReads + [out.taken],
            consumed := s.consumed + Loaded(s.ring, s.c.readOffset, out.taken))
  }

  function EndRead(s: Pipe, n: nat): Pipe
    requires InRange(s) && n < U32_RANGE
  {
    var (r, c1) := EndReadData(s.o, s.c, n);
    if r.Ok? then
      s.(c := c1, endingReads := s.endingReads + 1, unsentReads := s.unsentReads + [n],
         consumed := s.consumed + Loaded(s.ring, s.c.readOffset, n))
    else s.(c := c1, crashed := s.crashed || r.CheckFailed?)
  }

  function UpdateP(s: Pipe, k: nat, remote: bool): Pipe
    requires k <= |s.toProducer|
  {
    var p1 := UpdateProducer(s.o, s.p, ProducerPort(s, k, remote));
    if s.p.inTransit || ProducerPortClosed(s) then s.(p := p1) else s.(p := p1, toProducer := s.toProducer[k..])
  }

  function UpdateC(s: Pipe, k: nat, remote: bool): Pipe
    requires k <= |s.toConsumer|
  {
    var c1 := UpdateConsumer(s.o, s.c, ConsumerPort(s, k, remote));
    if s.c.inTransit || ConsumerPortClosed(s) then s.(c := c1) else s.(c := c1, toConsumer := s.toConsumer[k..])
  }

  function BeginWrite(s: Pipe): Pipe
    requires InRange(s)
  {
    var (r, p1, n) := BeginWriteData(s.o, s.p);
    if r.Ok? then s.(p := p1, exposed := n, exposedAt := s.p.writeOffset) else s.(p := p1)
  }

  function BeginRead(s: Pipe): Pipe
    requires InRange(s)
  {
    s.(c := BeginReadData(s.o, s.c).1)
  }

  /** User code stores one byte in the buffer that `BeginWriteData` exposed. */
  function Poke(s: Pipe, i: nat, b: byte): Pipe
    requires s.exposedAt + i < |s.ring|
  {
    s.(ring := s.ring[s.exposedAt + i := b])
  }

  function ReturnFromEndWrite(s: Pipe): Pipe
    requires s.endingWrites > 0
  {
    s.(p := s.p.(inTwoPhaseWrite := false), endingWrites := s.endingWrites - 1)
  }

  function ReturnFromEndRead(s: Pipe): Pipe
    requires s.endingReads > 0
  {
    s.(c := EndReadReturn(s.c), endingReads := s.endingReads - 1)
  }

  /**
   An end whose region is gone cannot be serialized.  Once an end is transferred its port is gone, so
   that counts it still owes are lost, and calls still under way return to the object it leaves behind.
   */
  function TransitP(s: Pipe, t: Transit): Pipe
    requires ProducerTransitEnabled(s, t)
  {
    match t
    case BeginTransit => s.(p := BeginProducerTransit(s.p).1)
    case CancelTransit(_, _) => s.(p := s.p.(inTransit := false), carriedProducer := None)
    case EndSerialize =>
      if !s.p.hasRegion then s
      else
        var (ss, p1) := SerializeProducer(s.o, s.p);
        s.(p := p1, carriedProducer := Some(ss))
    case CompleteTransit =>
      s.(p := CompleteProducerTransit(s.p), endingWrites := 0,
         unsentWrites := [], lostWrites := s.lostWrites + Sum(s.unsentWrites))
    case Deserialize(k, remote) =>
      match DeserializeProducer(s.carriedProducer.value)
      case Some(p1) => UpdateP(s.(p := p1, carriedProducer := None), k, remote)
      case None => s
  }

  function TransitC(s: Pipe, t: Transit): Pipe
    requires ConsumerTransitEnabled(s, t)
  {
    match t
    case BeginTransit => s.(c := BeginConsumerTransit(s.c).1)
    case CancelTransit(k, remote) =>
      UpdateC(s.(c := s.c.(inTransit := false), carriedConsumer := None), k, remote)
    case EndSerialize =>
      if !s.c.hasRegion then s
      else
        var (ss, c1) := SerializeConsumer(s.o, s.c);
        s.(c := c1, carriedConsumer := Some(ss))
    case CompleteTransit =>
      s.(c := CompleteConsumerTransit(s.c), endingReads := 0,
         unsentReads := [], lostReads := s.lostReads + Sum(s.unsentReads))
    case Deserialize(k, remote) =>
      match DeserializeConsumer(s.carriedConsumer.value)
      case Some(c1) => UpdateC(s.(c := c1, carriedConsumer := None), k, remote)
      case None => s
  }

  /** `CloseNoLock` on an end that is open and not in transit; otherwise it is refused. */
  function CloseP(s: Pipe): Pipe {
    if s.p.isClosed || s.p.inTransit then s
    else s.(p := s.p.(isClosed := true, hasRegion := false), exposed := 0)
  }

  function CloseC(s: Pipe): Pipe {
    if s.c.isClosed || s.c.inTransit then s else s.(c := s.c.(isClosed := true, hasRegion := false))
  }

  function Next(s: Pipe, step: Step): Pipe
    requires Enabled(s, step)
  {
    match step
    case WriteStep(data, allOrNone) => Write(s, data, allOrNone)
    case BeginWriteStep => BeginWrite(s)
    case PokeStep(i, b) => Poke(s, i, b)
    case EndWriteStep(n) => EndWrite(s, n)
    case EndWriteReturnStep => ReturnFromEndWrite(s)
    case SendWriteStep(i) => SendWrite(s, i)
    case UpdateProducerStep(k, remote) => UpdateP(s, k, remote)
    case ProducerTransitStep(t) => TransitP(s, t)
    case CloseProducerStep => CloseP(s)
    case ReadStep(flags, n) => Read(s, flags, n)
    case BeginReadStep => BeginRead(s)
    case EndReadStep(n) => EndRead(s, n)
    case EndReadReturnStep => ReturnFromEndRead(s)
    case SendReadStep(i) => SendRead(s, i)
    case UpdateConsumerStep(k, remote) => UpdateC(s, k, remote)
    case ConsumerTransitStep(t) => TransitC(s, t)
    case CloseConsumerStep => CloseC(s)
  }

  // ---- the invariant ----

  function Unread(s: Pipe): int { |s.produced| - |s.consumed| }

  /** Where the two streams lie in the ring. */
  predicate StreamInv(s: Pipe) {
    StreamsInRing(s.o, s.ring, s.produced, s.consumed, s.p.writeOffset, s.c.readOffset)
  }

  predicate StreamsInRing(
    o: Options, ring: seq<byte>, produced: seq<byte>, consumed: seq<byte>, writeOffset: nat, readOffset: nat)
  {
    && o.Valid() && |ring| == o.capacity
    && consumed <= produced && |produced| - |consumed| <= o.capacity
    && writeOffset == Slot(|produced|, o.capacity)
    && readOffset == Slot(|consumed|, o.capacity)
    && RingHolds(ring, produced, |consumed|)
  }

  /** Every byte of capacity is accounted for exactly once. */
  predicate CountInv(s: Pipe) {
    && Unread(s) == s.c.bytesAvailable + Sum(s.toConsumer) + Sum(s.unsentWrites) + s.lostWrites
    && s.p.availableCapacity + Unread(s) + Sum(s.toProducer) + Sum(s.unsentReads) + s.lostReads == s.o.capacity
  }

  predicate ProducerInv(s: Pipe) {
    && (s.exposed > 0 ==>
          s.exposedAt == s.p.writeOffset && s.p.inTwoPhaseWrite && s.endingWrites == 0 && !s.p.isClosed)
    && s.exposed <= s.p.availableCapacity && (s.exposed > 0 ==> s.exposedAt + s.exposed <= s.o.capacity)
    && s.endingWrites <= 1 && (s.endingWrites > 0 ==> s.p.inTwoPhaseWrite)
    && !(s.p.inTransit && s.p.inTwoPhaseWrite)
    && (s.p.isClosed ==> !s.p.hasRegion && !s.p.inTransit)
    && (s.p.transferred ==> s.p.isClosed && s.carriedProducer.Some? && !s.p.inTwoPhaseWrite && s.unsentWrites == [])
    && (s.carriedProducer.Some? ==>
          && (s.p.inTransit || s.p.transferred) && !s.p.hasRegion
          && var ss := s.carriedProducer.value;
             ss.o == s.o && ss.offset == s.p.writeOffset && ss.count == s.p.availableCapacity
             && (ss.peerClosed ==> ConsumerPortClosed(s) && s.toProducer == []))
    && (s.p.peerClosed ==> ProducerPortClosed(s) || (ConsumerPortClosed(s) && s.toProducer == []))
  }

  predicate ConsumerInv(s: Pipe) {
    && (s.c.inTwoPhaseRead && s.endingReads == 0 ==>
          s.c.twoPhaseMaxBytesRead <= s.c.bytesAvailable && s.c.readOffset + s.c.twoPhaseMaxBytesRead <= s.o.capacity)
    && s.c.twoPhaseMaxBytesRead <= s.o.capacity
    && (!s.c.inTwoPhaseRead ==> s.c.twoPhaseMaxBytesRead == 0)
    && s.endingReads <= 1 && (s.endingReads > 0 ==> s.c.inTwoPhaseRead)
    && (s.c.inTwoPhaseRead && !s.c.isClosed ==> s.c.hasRegion)
    && !(s.c.inTransit && s.c.inTwoPhaseRead)
    && (s.c.isClosed ==> !s.c.hasRegion && !s.c.inTransit)
    && (s.c.transferred ==> s.c.isClosed && s.carriedConsumer.Some? && !s.c.inTwoPhaseRead && s.unsentReads == [])
    && (s.carriedConsumer.Some? ==>
          && (s.c.inTransit || s.c.transferred) && !s.c.hasRegion
          && var ss := s.carriedConsumer.value;
             ss.o == s.o && ss.offset == s.c.readOffset && ss.count == s.c.bytesAvailable
             && (ss.peerClosed ==> ProducerPortClosed(s) && s.toConsumer == []))
    && (s.c.peerClosed ==> ConsumerPortClosed(s) || (ProducerPortClosed(s) && s.toConsumer == []))
  }

  predicate AllWhole(ns: seq<nat>, g: nat)
    requires g > 0
  {
    forall i :: 0 <= i < |ns| ==> Whole(ns[i], g)
  }

  /** Every count and both stream lengths are multiples of the grain. */
  predicate GrainInv(s: Pipe) {
    && Exact(s.o)
    && var g := Grain(s.o);
       && Whole(|s.produced|, g) && Whole(|s.consumed|, g)
       && Whole(s.p.availableCapacity, g) && Whole(s.c.bytesAvailable, g)
       && AllWhole(s.unsentWrites, g) && AllWhole(s.toConsumer, g)
       && AllWhole(s.unsentReads, g) && AllWhole(s.toProducer, g)
  }

  predicate Core(s: Pipe) {
    StreamInv(s) && CountInv(s) && ProducerInv(s) && ConsumerInv(s)
  }

  predicate Inv(s: Pipe) {
    Core(s) && GrainInv(s)
  }
}
