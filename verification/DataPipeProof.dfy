/** What every step of the data pipe protocol keeps. */
module DataPipeProof {
  import opened Basics
  import opened RingMath
  import opened Division
  import opened DataPipe
  import opened DataPipeProtocol

  // ---- ring lemmas ----

  /** As long as sums of offsets and counts are exact, the code's offsets follow the streams. */
  lemma NextOffsetIsSlot(o: Options, i: nat, n: nat)
    requires Exact(o) && Whole(i, Grain(o)) && n <= LargestCount(o)
    ensures NextOffset(Slot(i, o.capacity), n, o.capacity) == Slot(i + n, o.capacity)
  {
    GrainDivides(o);
    WholeRemainder(i, o.capacity, Grain(o));
    SumStaysBelow(o, Slot(i, o.capacity), n);
    SlotStep(i, n, o.capacity);
  }

  /** What is loaded from the consumer's offset is the stream itself. */
  lemma LoadedIsStream(ring: seq<byte>, produced: seq<byte>, start: nat, n: nat)
    requires |ring| > 0 && start + n <= |produced| && n <= |ring|
    requires RingHolds(ring, produced, start)
    ensures Loaded(ring, Slot(start, |ring|), n) == produced[start..start + n]
  {
    forall k | 0 <= k < n
      ensures Loaded(ring, Slot(start, |ring|), n)[k] == produced[start..start + n][k]
    {
      SlotAdvance(start, k, |ring|);
      assert ring[Slot(start + k, |ring|)] == produced[start + k];
    }
  }

  /** Storing behind the unread bytes extends the stream and disturbs none of it. */
  lemma StoredExtends(ring: seq<byte>, produced: seq<byte>, start: nat, data: seq<byte>)
    requires |ring| > 0 && start <= |produced| && |produced| + |data| <= start + |ring|
    requires RingHolds(ring, produced, start)
    ensures RingHolds(Stored(ring, Slot(|produced|, |ring|), data), produced + data, start)
  {
    var n := |ring|;
    var offset := Slot(|produced|, n);
    var ring' := Stored(ring, offset, data);
    forall i: nat | start <= i < |produced + data|
      ensures ring'[Slot(i, n)] == (produced + data)[i]
    {
      if i < |produced| {
        SlotAdvance(i, |produced| - i, n);
      } else {
        SlotAdvance(|produced|, i - |produced|, n);
      }
    }
  }

  /** Writing a byte into a free slot disturbs no unread byte. */
  lemma PokePreserves(ring: seq<byte>, produced: seq<byte>, start: nat, i: nat, b: byte)
    requires |ring| > 0 && start <= |produced| && |produced| + i < start + |ring|
    requires Slot(|produced|, |ring|) + i < |ring|
    requires RingHolds(ring, produced, start)
    ensures RingHolds(ring[Slot(|produced|, |ring|) + i := b], produced, start)
  {
    SlotAdvance(|produced|, i, |ring|);
    forall j: nat | start <= j < |produced|
      ensures Slot(j, |ring|) != Slot(|produced|, |ring|) + i
    {
      SlotsDistinct(j, |produced| + i, |ring|);
    }
  }

  /** Committing `n` bytes already in the ring behind the stream extends the stream by those bytes. */
  lemma CommitExtends(ring: seq<byte>, produced: seq<byte>, start: nat, n: nat)
    requires |ring| > 0 && start <= |produced| && n <= |ring|
    requires RingHolds(ring, produced, start)
    ensures RingHolds(ring, produced + Loaded(ring, Slot(|produced|, |ring|), n), start)
  {
    var data := Loaded(ring, Slot(|produced|, |ring|), n);
    forall i: nat | start <= i < |produced + data|
      ensures ring[Slot(i, |ring|)] == (produced + data)[i]
    {
      if i >= |produced| {
        SlotAdvance(|produced|, i - |produced|, |ring|);
      }
    }
  }

  // ---- every step keeps the core of the invariant ----

  lemma UnreadBounded(s: Pipe)
    requires StreamInv(s)
    ensures 0 <= Unread(s) <= s.o.capacity
  {
  }

  lemma InvHasCore(s: Pipe)
    requires Inv(s)
    ensures Core(s)
  {
  }

  /** The ranges that the calls take for granted, and insist on in debug builds, always hold. */
  lemma InvInRange(s: Pipe)
    requires Core(s)
    ensures InRange(s)
  {
  }

  /**
   The CHECK of `EndReadData` fails exactly for an end that was closed in the middle of a two-phase read,
   and its DCHECK holds for the only such call under way.
   */
  lemma EndReadCheckIff(s: Pipe, n: nat)
    requires Core(s) && InRange(s) && n < U32_RANGE
    ensures EndReadData(s.o, s.c, n).0.CheckFailed? <==> s.c.inTwoPhaseRead && s.c.isClosed
    ensures EndReadData(s.o, s.c, n).0.Ok? && s.endingReads == 0 ==> n <= s.c.bytesAvailable
  {
  }

  /** Taking the next `n` unread bytes keeps the streams in place. */
  lemma TakeKeepsStreams(s: Pipe, n: nat)
    requires StreamInv(s) && GrainInv(s) && n <= Unread(s) && n <= LargestCount(s.o)
    ensures StreamsInRing(s.o, s.ring, s.produced, s.consumed + Loaded(s.ring, s.c.readOffset, n),
                          s.p.writeOffset, NextOffset(s.c.readOffset, n, s.o.capacity))
  {
    NextOffsetIsSlot(s.o, |s.consumed|, n);
    LoadedIsStream(s.ring, s.produced, |s.consumed|, n);
  }

  /** Bytes leave the pipe only as a commit of at most what is available and what was asked for. */
  lemma ReadTakes(s: Pipe, flags: ReadFlags, n: nat)
    requires InRange(s)
    ensures var out := ReadData(s.o, s.c, s.ring, flags, n);
      var c1 := s.c.(newDataAvailable := out.c.newDataAvailable);
      && (out.taken == 0 ==> out.c == c1)
      && (out.taken > 0 ==>
            && !s.c.inTwoPhaseRead && s.c.hasRegion && !s.c.inTransit && Whole(n, s.o.elementBytes)
            && out.taken == Min(n, s.c.bytesAvailable) && out.c == CommitRead(s.o, c1, out.taken))
  {
  }

  lemma WriteKeepsStreams(s: Pipe, data: seq<byte>, allOrNone: bool)
    requires StreamInv(s) && CountInv(s) && GrainInv(s) && InRange(s) && |data| < U32_RANGE
    ensures StreamInv(Write(s, data, allOrNone))
  {
    hide GrainInv;
    var n := WriteData(s.o, s.p, s.ring, data, allOrNone).count;
    if n > 0 {
      CountFits(s.o, |data|, n);
      GrainOfProduced(s);
      NextOffsetIsSlot(s.o, |s.produced|, n);
      StoredExtends(s.ring, s.produced, |s.consumed|, data[..n]);
    }
  }

  lemma WriteKeepsCore(s: Pipe, data: seq<byte>, allOrNone: bool)
    requires Inv(s) && InRange(s) && |data| < U32_RANGE
    ensures Core(Write(s, data, allOrNone))
  {
    WriteKeepsStreams(s, data, allOrNone);
    hide GrainInv, StreamsInRing, Stored, NextOffset;
    var n := WriteData(s.o, s.p, s.ring, data, allOrNone).count;
    if n > 0 { SumAppend(s.unsentWrites, [n]); }
  }

  lemma GrainOfProduced(s: Pipe)
    requires GrainInv(s)
    ensures Exact(s.o) && Whole(|s.produced|, Grain(s.o)) && Whole(|s.consumed|, Grain(s.o))
  {
  }

  lemma EndWriteKeepsStreams(s: Pipe, n: nat)
    requires Inv(s) && InRange(s) && n < U32_RANGE && s.endingWrites == 0
    ensures StreamInv(EndWrite(s, n))
  {
    hide GrainInv;
    if EndWriteData(s.o, s.p, n).0.Ok? {
      CountFits(s.o, n, n);
      GrainOfProduced(s);
      NextOffsetIsSlot(s.o, |s.produced|, n);
      CommitExtends(s.ring, s.produced, |s.consumed|, n);
    }
  }

  lemma EndWriteKeepsCore(s: Pipe, n: nat)
    requires Inv(s) && InRange(s) && n < U32_RANGE && s.endingWrites == 0
    ensures Core(EndWrite(s, n))
  {
    EndWriteKeepsStreams(s, n);
    hide GrainInv, StreamsInRing, NextOffset;
    if EndWriteData(s.o, s.p, n).0.Ok? { SumAppend(s.unsentWrites, [n]); }
  }

  lemma ReadKeepsStreams(s: Pipe, flags: ReadFlags, n: nat)
    requires Inv(s) && InRange(s) && n < U32_RANGE
    ensures StreamInv(Read(s, flags, n))
  {
    hide ReadData, RingHolds, GrainInv, LargestCount, ProducerInv, ConsumerInv;
    ReadTakes(s, flags, n);
    var k := ReadData(s.o, s.c, s.ring, flags, n).taken;
    if k > 0 {
      CountFits(s.o, n, k);
      TakeKeepsStreams(s, k);
    }
  }

  lemma ReadKeepsCore(s: Pipe, flags: ReadFlags, n: nat)
    requires Inv(s) && InRange(s) && n < U32_RANGE
    ensures Core(Read(s, flags, n))
  {
    ReadKeepsStreams(s, flags, n);
    hide ReadData, GrainInv, StreamsInRing, NextOffset;
    ReadTakes(s, flags, n);
    var k := ReadData(s.o, s.c, s.ring, flags, n).taken;
    if k > 0 { SumAppend(s.unsentReads, [k]); }
  }

  lemma EndReadKeepsCore(s: Pipe, n: nat)
    requires Inv(s) && InRange(s) && n < U32_RANGE && s.endingReads == 0
    ensures Core(EndRead(s, n))
  {
    hide RingHolds, GrainInv, LargestCount;
    if EndReadData(s.o, s.c, n).0.Ok? {
      EndReadCommits(s.o, s.c, n);
      CountFits(s.o, n, n);
      TakeKeepsStreams(s, n);
      SumAppend(s.unsentReads, [n]);
    }
  }

  lemma SendWriteKeepsCore(s: Pipe, i: nat)
    requires Core(s) && i < |s.unsentWrites|
    ensures Core(SendWrite(s, i))
  {
    hide StreamsInRing;
    SumRemove(s.unsentWrites, i);
    SumAppend(s.toConsumer, [s.unsentWrites[i]]);
  }

  lemma SendReadKeepsCore(s: Pipe, i: nat)
    requires Core(s) && i < |s.unsentReads|
    ensures Core(SendRead(s, i))
  {
    hide StreamsInRing;
    SumRemove(s.unsentReads, i);
    SumAppend(s.toProducer, [s.unsentReads[i]]);
  }

  /** The producer moves counts from the port into its capacity, and meets no error branch. */
  lemma ProducerAfterUpdate(s: Pipe, k: nat, remote: bool)
    requires CountInv(s) && Unread(s) >= 0 && k <= |s.toProducer|
    ensures var p1 := UpdateProducer(s.o, s.p, ProducerPort(s, k, remote));
      var deaf := s.p.inTransit || ProducerPortClosed(s);
      && p1.availableCapacity == s.p.availableCapacity + (if deaf then 0 else Sum(s.toProducer[..k]))
      && p1.peerClosed == (s.p.peerClosed || ProducerPortClosed(s) || (ConsumerPortClosed(s) &&
           (s.toProducer == [] || (!s.p.inTransit && k == |s.toProducer|))))
      && p1 == s.p.(availableCapacity := p1.availableCapacity, peerClosed := p1.peerClosed,
                    peerRemote := remote && !ProducerPortClosed(s))
  {
    SumSplit(s.toProducer, k);
    DrainReadsSums(s.o.capacity, s.p.availableCapacity, s.toProducer[..k]);
  }

  lemma ConsumerAfterUpdate(s: Pipe, k: nat, remote: bool)
    requires CountInv(s) && Unread(s) <= s.o.capacity && k <= |s.toConsumer|
    ensures var c1 := UpdateConsumer(s.o, s.c, ConsumerPort(s, k, remote));
      var drained := if s.c.inTransit || ConsumerPortClosed(s) then 0 else Sum(s.toConsumer[..k]);
      && c1.bytesAvailable == s.c.bytesAvailable + drained
      && c1.newDataAvailable == (s.c.newDataAvailable || drained > 0)
      && c1.peerClosed == (s.c.peerClosed || ConsumerPortClosed(s) || (ProducerPortClosed(s) &&
           (s.toConsumer == [] || (!s.c.inTransit && k == |s.toConsumer|))))
      && c1 == s.c.(bytesAvailable := c1.bytesAvailable, newDataAvailable := c1.newDataAvailable,
                    peerClosed := c1.peerClosed, peerRemote := remote && !ConsumerPortClosed(s))
  {
    SumSplit(s.toConsumer, k);
    DrainWritesSums(s.o.capacity, s.c.bytesAvailable, s.toConsumer[..k]);
  }

  lemma UpdateProducerKeepsCore(s: Pipe, k: nat, remote: bool)
    requires Core(s) && k <= |s.toProducer| && !s.p.transferred
    ensures Core(UpdateP(s, k, remote))
  {
    hide RingHolds, UpdateProducer, ProducerPort;
    ProducerAfterUpdate(s, k, remote);
    SumSplit(s.toProducer, k);
  }

  lemma UpdateConsumerKeepsCore(s: Pipe, k: nat, remote: bool)
    requires Core(s) && k <= |s.toConsumer| && !s.c.transferred
    ensures Core(UpdateC(s, k, remote))
  {
    hide RingHolds, UpdateConsumer, ConsumerPort;
    ConsumerAfterUpdate(s, k, remote);
    SumSplit(s.toConsumer, k);
  }

  lemma BeginWriteKeepsCore(s: Pipe)
    requires Core(s) && InRange(s)
    ensures Core(BeginWrite(s))
  {
    hide RingHolds;
  }

  lemma BeginReadKeepsCore(s: Pipe)
    requires Core(s) && InRange(s)
    ensures Core(BeginRead(s))
  {
    hide RingHolds;
  }

  lemma ReturnsKeepCore(s: Pipe)
    requires Core(s)
    ensures s.endingWrites > 0 ==> Core(ReturnFromEndWrite(s))
    ensures s.endingReads > 0 ==> Core(ReturnFromEndRead(s))
  {
    hide StreamsInRing;
  }

  lemma PokeKeepsCore(s: Pipe, i: nat, b: byte)
    requires Core(s) && i < s.exposed && s.exposedAt + i < |s.ring|
    ensures Core(Poke(s, i, b))
  {
    PokePreserves(s.ring, s.produced, |s.consumed|, i, b);
  }

  lemma ProducerTransitKeepsCore(s: Pipe, t: Transit)
    requires Core(s) && ProducerTransitEnabled(s, t)
    ensures Core(TransitP(s, t))
  {
    hide RingHolds;
    match t
    case Deserialize(k, remote) =>
      var p1 := DeserializeProducer(s.carriedProducer.value).value;
      UpdateProducerKeepsCore(s.(p := p1, carriedProducer := None), k, remote);
    case _ =>
  }

  lemma ConsumerTransitKeepsCore(s: Pipe, t: Transit)
    requires Core(s) && ConsumerTransitEnabled(s, t)
    ensures Core(TransitC(s, t))
  {
    hide RingHolds;
    match t
    case CancelTransit(k, remote) =>
      UpdateConsumerKeepsCore(s.(c := s.c.(inTransit := false), carriedConsumer := None), k, remote);
    case Deserialize(k, remote) =>
      var c1 := DeserializeConsumer(s.carriedConsumer.value).value;
      UpdateConsumerKeepsCore(s.(c := c1, carriedConsumer := None), k, remote);
    case _ =>
  }

  lemma CloseProducerKeepsCore(s: Pipe)
    requires Core(s)
    ensures Core(CloseP(s))
  {
    hide StreamsInRing;
  }

  lemma CloseConsumerKeepsCore(s: Pipe)
    requires Core(s)
    ensures Core(CloseC(s))
  {
    hide StreamsInRing;
  }

  lemma StepKeepsCore(s: Pipe, step: Step)
    requires Inv(s) && Enabled(s, step) && Orderly(s, step)
    ensures Core(Next(s, step))
  {
    hide Core, GrainInv, Write, EndWrite, Read, EndRead, UpdateP, UpdateC, TransitP, TransitC, BeginWrite, BeginRead,
         SendWrite, SendRead, CloseP, CloseC;
    match step
    case WriteStep(data, allOrNone) => WriteKeepsCore(s, data, allOrNone);
    case BeginWriteStep => BeginWriteKeepsCore(s);
    case PokeStep(i, b) => PokeKeepsCore(s, i, b);
    case EndWriteStep(n) => EndWriteKeepsCore(s, n);
    case EndWriteReturnStep => ReturnsKeepCore(s);
    case SendWriteStep(i) => SendWriteKeepsCore(s, i);
    case UpdateProducerStep(k, remote) => UpdateProducerKeepsCore(s, k, remote);
    case ProducerTransitStep(t) => ProducerTransitKeepsCore(s, t);
    case CloseProducerStep => CloseProducerKeepsCore(s);
    case ReadStep(flags, n) => ReadKeepsCore(s, flags, n);
    case BeginReadStep => BeginReadKeepsCore(s);
    case EndReadStep(n) => EndReadKeepsCore(s, n);
    case EndReadReturnStep => ReturnsKeepCore(s);
    case SendReadStep(i) => SendReadKeepsCore(s, i);
    case UpdateConsumerStep(k, remote) => UpdateConsumerKeepsCore(s, k, remote);
    case ConsumerTransitStep(t) => ConsumerTransitKeepsCore(s, t);
    case CloseConsumerStep => CloseConsumerKeepsCore(s);
  }

  // ---- every step keeps the grain ----

  lemma {:induction false} WholeTotal(ns: seq<nat>, g: nat)
    requires g > 0 && AllWhole(ns, g)
    ensures Whole(Sum(ns), g)
  {
    if ns != [] {
      assert forall i :: 0 <= i < |ns[1..]| ==> ns[1..][i] == ns[i + 1];
      WholeTotal(ns[1..], g);
      WholeSum(ns[0], Sum(ns[1..]), g);
    }
  }

  /** A count asked for in whole elements, or cut at a multiple of the grain, is a multiple of the grain. */
  lemma CutIsWhole(o: Options, asked: nat, limit: nat)
    requires o.Valid() && Whole(asked, o.elementBytes) && Whole(limit, Grain(o))
    ensures Whole(Min(asked, limit), Grain(o))
  {
    GrainDivides(o);
    WholeTransitive(asked, o.elementBytes, Grain(o));
  }

  lemma ProduceKeepsGrain(s: Pipe, n: nat)
    requires GrainInv(s) && Whole(n, Grain(s.o)) && n <= s.p.availableCapacity
    ensures var g := Grain(s.o);
      Whole(|s.produced| + n, g) && Whole(s.p.availableCapacity - n, g) && AllWhole(s.unsentWrites + [n], g)
  {
    WholeSum(|s.produced|, n, Grain(s.o));
    WholeSum(s.p.availableCapacity, n, Grain(s.o));
  }

  lemma ConsumeKeepsGrain(s: Pipe, n: nat)
    requires GrainInv(s) && Whole(n, Grain(s.o)) && n <= s.c.bytesAvailable
    ensures var g := Grain(s.o);
      Whole(|s.consumed| + n, g) && Whole(s.c.bytesAvailable - n, g) && AllWhole(s.unsentReads + [n], g)
  {
    WholeSum(|s.consumed|, n, Grain(s.o));
    WholeSum(s.c.bytesAvailable, n, Grain(s.o));
  }

  lemma UpdateProducerKeepsGrain(s: Pipe, k: nat, remote: bool)
    requires Inv(s) && k <= |s.toProducer|
    ensures GrainInv(UpdateP(s, k, remote))
  {
    hide Whole, UpdateProducer, ProducerPort, ProducerInv, ConsumerInv, Exact;
    ProducerAfterUpdate(s, k, remote);
    WholeTotal(s.toProducer[..k], Grain(s.o));
    WholeSum(s.p.availableCapacity, Sum(s.toProducer[..k]), Grain(s.o));
  }

  lemma UpdateConsumerKeepsGrain(s: Pipe, k: nat, remote: bool)
    requires Inv(s) && k <= |s.toConsumer|
    ensures GrainInv(UpdateC(s, k, remote))
  {
    hide Whole, UpdateConsumer, ConsumerPort, ProducerInv, ConsumerInv, Exact;
    ConsumerAfterUpdate(s, k, remote);
    WholeTotal(s.toConsumer[..k], Grain(s.o));
    WholeSum(s.c.bytesAvailable, Sum(s.toConsumer[..k]), Grain(s.o));
  }

  lemma WriteKeepsGrain(s: Pipe, data: seq<byte>, allOrNone: bool)
    requires GrainInv(s) && InRange(s)
    ensures GrainInv(Write(s, data, allOrNone))
  {
    hide AllWhole, Exact;
    var n := WriteData(s.o, s.p, s.ring, data, allOrNone).count;
    if n > 0 {
      CutIsWhole(s.o, |data|, s.p.availableCapacity);
      ProduceKeepsGrain(s, n);
    }
  }

  lemma EndWriteKeepsGrain(s: Pipe, n: nat)
    requires GrainInv(s) && InRange(s) && n < U32_RANGE
    ensures GrainInv(EndWrite(s, n))
  {
    hide AllWhole, Exact;
    if EndWriteData(s.o, s.p, n).0.Ok? {
      CutIsWhole(s.o, n, s.p.availableCapacity);
      ProduceKeepsGrain(s, n);
    }
  }

  lemma ReadKeepsGrain(s: Pipe, flags: ReadFlags, n: nat)
    requires GrainInv(s) && InRange(s)
    ensures GrainInv(Read(s, flags, n))
  {
    hide AllWhole, Exact, ReadData;
    ReadTakes(s, flags, n);
    if ReadData(s.o, s.c, s.ring, flags, n).taken > 0 {
      CutIsWhole(s.o, n, s.c.bytesAvailable);
      ConsumeKeepsGrain(s, Min(n, s.c.bytesAvailable));
    }
  }

  lemma EndReadKeepsGrain(s: Pipe, n: nat)
    requires GrainInv(s) && ConsumerInv(s) && InRange(s) && n < U32_RANGE && s.endingReads == 0
    ensures GrainInv(EndRead(s, n))
  {
    hide AllWhole, Exact;
    if EndReadData(s.o, s.c, n).0.Ok? {
      CutIsWhole(s.o, n, s.c.bytesAvailable);
      EndReadCommits(s.o, s.c, n);
      ConsumeKeepsGrain(s, n);
    }
  }

  lemma SendsKeepGrain(s: Pipe, i: nat)
    requires GrainInv(s)
    ensures i < |s.unsentWrites| ==> GrainInv(SendWrite(s, i))
    ensures i < |s.unsentReads| ==> GrainInv(SendRead(s, i))
  {
    hide Exact, Whole;
  }

  lemma ProducerTransitKeepsGrain(s: Pipe, t: Transit)
    requires Inv(s) && ProducerTransitEnabled(s, t)
    ensures GrainInv(TransitP(s, t))
  {
    hide Whole, Exact, UpdateP, RingHolds;
    match t
    case Deserialize(k, remote) =>
      var p1 := DeserializeProducer(s.carriedProducer.value).value;
      UpdateProducerKeepsGrain(s.(p := p1, carriedProducer := None), k, remote);
    case _ =>
  }

  lemma ConsumerTransitKeepsGrain(s: Pipe, t: Transit)
    requires Inv(s) && ConsumerTransitEnabled(s, t)
    ensures GrainInv(TransitC(s, t))
  {
    hide Whole, Exact, UpdateC, RingHolds;
    match t
    case CancelTransit(k, remote) =>
      UpdateConsumerKeepsGrain(s.(c := s.c.(inTransit := false), carriedConsumer := None), k, remote);
    case Deserialize(k, remote) =>
      var c1 := DeserializeConsumer(s.carriedConsumer.value).value;
      UpdateConsumerKeepsGrain(s.(c := c1, carriedConsumer := None), k, remote);
    case _ =>
  }

  lemma StepKeepsGrain(s: Pipe, step: Step)
    requires Inv(s) && Enabled(s, step) && Orderly(s, step)
    ensures GrainInv(Next(s, step))
  {
    hide StreamInv, CountInv, ProducerInv, Write, EndWrite, Read, EndRead, UpdateP, UpdateC, SendWrite, SendRead,
         TransitP, TransitC, AllWhole, Whole, Exact;
    match step
    case WriteStep(data, allOrNone) => WriteKeepsGrain(s, data, allOrNone);
    case EndWriteStep(n) => EndWriteKeepsGrain(s, n);
    case ReadStep(flags, n) => ReadKeepsGrain(s, flags, n);
    case EndReadStep(n) => EndReadKeepsGrain(s, n);
    case UpdateProducerStep(k, remote) => UpdateProducerKeepsGrain(s, k, remote);
    case UpdateConsumerStep(k, remote) => UpdateConsumerKeepsGrain(s, k, remote);
    case ProducerTransitStep(t) => ProducerTransitKeepsGrain(s, t);
    case ConsumerTransitStep(t) => ConsumerTransitKeepsGrain(s, t);
    case SendWriteStep(i) => SendsKeepGrain(s, i);
    case SendReadStep(i) => SendsKeepGrain(s, i);
    case _ =>
  }

  /** No step of either end, in any order, breaks the invariant. */
  lemma StepKeepsInv(s: Pipe, step: Step)
    requires Inv(s) && Enabled(s, step) && Orderly(s, step)
    ensures Inv(Next(s, step))
  {
    hide Core, GrainInv, Enabled, Next;
    StepKeepsCore(s, step);
    StepKeepsGrain(s, step);
  }
}
