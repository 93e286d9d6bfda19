/**
 The two data pipe dispatchers as objects over a shared ring, each method proved to do to the object
 and to the ring exactly what the functions of `DataPipe` say.
 */
module DataPipeDispatchers {
  import opened Basics
  import opened RingMath
  import Spec = DataPipe
  import opened DataPipe

  class ProducerDispatcher {
    const options: Options
    const ring: array<byte>
    var writeOffset: nat
    var availableCapacity: nat
    var inTwoPhaseWrite: bool
    var inTransit: bool
    var hasRegion: bool
    var isClosed: bool
    var transferred: bool
    var peerClosed: bool
    var peerRemote: bool

    ghost function State(): Producer
      reads this
    {
      Producer(writeOffset, availableCapacity, inTwoPhaseWrite, inTransit, hasRegion, isClosed, transferred,
               peerClosed, peerRemote)
    }

    ghost predicate Valid()
      reads this
    {
      ProducerInRange(options, State()) && ring.Length == options.capacity
    }

    constructor (options: Options, ring: array<byte>)
      requires options.Valid() && ring.Length == options.capacity
      ensures Valid() && this.options == options && this.ring == ring && State() == NewProducer(options)
    {
      this.options, this.ring := options, ring;
      writeOffset, availableCapacity := 0, options.capacity;
      inTwoPhaseWrite, inTransit, hasRegion, isClosed, transferred := false, false, true, false, false;
      peerClosed, peerRemote := false, false;
    }

    /** Copies up to the end of the ring, then wraps to its front. */
    method CopyIn(data: seq<byte>)
      requires Valid() && |data| <= options.capacity
      modifies ring
      ensures ring[..] == Stored(old(ring[..]), writeOffset, data)
    {
      var tail := Min(options.capacity - writeOffset, |data|);
      var head := |data| - tail;
      forall i | 0 <= i < tail { ring[writeOffset + i] := data[i]; }
      if head > 0 {
        forall i | 0 <= i < head { ring[i] := data[tail + i]; }
      }
      assert ring[..] == Stored(old(ring[..]), writeOffset, data) by {
        forall i | 0 <= i < ring.Length ensures ring[i] == Stored(old(ring[..]), writeOffset, data)[i] {
        }
      }
    }

    method WriteData(source: seq<byte>, allOrNone: bool) returns (result: MojoResult, count: nat)
      requires Valid() && |source| < U32_RANGE
      modifies this, ring
      ensures Valid()
      ensures WriteOutcome(result, State(), ring[..], count)
        == Spec.WriteData(options, old(State()), old(ring[..]), source, allOrNone)
    {
      if !hasRegion || inTransit { return InvalidArgument, 0; }
      if inTwoPhaseWrite { return Busy, 0; }
      if peerClosed { return FailedPrecondition, 0; }
      if |source| % options.elementBytes != 0 { return InvalidArgument, 0; }
      if |source| == 0 { return Ok, 0; }
      if allOrNone && |source| > availableCapacity { return OutOfRange, 0; }
      var n := Min(|source|, availableCapacity);
      if n == 0 { return ShouldWait, 0; }
      CopyIn(source[..n]);
      hide Stored;
      availableCapacity := availableCapacity - n;
      writeOffset := (writeOffset + n) % U32_RANGE % options.capacity;
      return Ok, n;
    }

    /** On success the caller may write `exposed` bytes of the ring from `writeOffset` on. */
    method BeginWriteData() returns (result: MojoResult, exposed: nat)
      requires Valid()
      modifies this
      ensures Valid()
      ensures (result, State(), exposed) == Spec.BeginWriteData(options, old(State()))
      ensures result.Ok? ==> 0 < exposed <= availableCapacity && writeOffset + exposed <= ring.Length
    {
      if !hasRegion || inTransit { return InvalidArgument, 0; }
      if inTwoPhaseWrite { return Busy, 0; }
      if peerClosed { return FailedPrecondition, 0; }
      if availableCapacity == 0 { return ShouldWait, 0; }
      inTwoPhaseWrite := true;
      return Ok, Min(options.capacity - writeOffset, availableCapacity);
    }

    /**
     Up to 2^31 bytes a commit is accepted exactly when it is whole, covered by the free capacity, and ends
     within the ring; beyond, the comparison with the end of the ring wraps and lets more through.
     */
    method EndWriteData(n: nat) returns (result: MojoResult)
      requires Valid() && n < U32_RANGE
      modifies this
      ensures Valid()
      ensures (result, State()) == Spec.EndWriteData(options, old(State()), n)
      ensures result.Ok? ==> availableCapacity + n == old(availableCapacity)
      ensures !result.Ok? ==> availableCapacity == old(availableCapacity) && writeOffset == old(writeOffset)
      ensures options.capacity <= 0x8000_0000 && old(inTwoPhaseWrite) && !old(inTransit) && !old(isClosed) ==>
        (result.Ok? <==> n <= old(availableCapacity) && n % options.elementBytes == 0
                         && old(writeOffset) + n <= ring.Length)
    {
      if isClosed || inTransit { return InvalidArgument; }
      if !inTwoPhaseWrite { return FailedPrecondition; }
      if n > availableCapacity || n % options.elementBytes != 0
         || (writeOffset + n) % U32_RANGE > options.capacity
      {
        inTwoPhaseWrite := false;
        return InvalidArgument;
      }
      availableCapacity := availableCapacity - n;
      writeOffset := (writeOffset + n) % U32_RANGE % options.capacity;
      return Ok;
    }

    /** Takes the control messages one by one, stopping at the first that makes no sense. */
    method DrainControlPort(port: PortView)
      requires options.Valid() && availableCapacity <= options.capacity
      modifies `availableCapacity, `peerClosed
      ensures availableCapacity <= options.capacity
      ensures var d := DrainReads(options.capacity, old(availableCapacity), port.messages);
        && availableCapacity == d.total
        && peerClosed == (old(peerClosed) || d.peerClosed || (d.complete && port.closedAfter))
    {
      var i := 0;
      while i < |port.messages|
        invariant i <= |port.messages| && availableCapacity <= options.capacity && peerClosed == old(peerClosed)
        invariant DrainReads(options.capacity, availableCapacity, port.messages[i..])
               == DrainReads(options.capacity, old(availableCapacity), port.messages)
      {
        var m := port.messages[i];
        assert port.messages[i..][1..] == port.messages[i + 1..];
        if !m.DataWasRead? {
          peerClosed := true;
          return;
        }
        if availableCapacity + m.n > options.capacity { return; }
        availableCapacity := availableCapacity + m.n;
        i := i + 1;
      }
      if port.closedAfter { peerClosed := true; }
    }

    method UpdateSignalsState(port: PortView)
      requires Valid()
      modifies this
      ensures Valid()
      ensures State() == UpdateProducer(options, old(State()), port)
    {
      peerRemote := port.peerRemote;
      if !port.receiving {
        peerClosed := true;
      } else if port.messages != [] && !inTransit {
        DrainControlPort(port);
      }
    }

    /** Succeeds exactly for an end that is neither in transit nor in a two-phase write, and marks no other. */
    method BeginTransit() returns (ok: bool)
      modifies `inTransit
      ensures (ok, State()) == BeginProducerTransit(old(State()))
      ensures ok <==> !old(inTransit) && !old(inTwoPhaseWrite)
      ensures inTransit <==> old(inTransit) || ok
    {
      if inTransit { return false; }
      inTransit := !inTwoPhaseWrite;
      return inTransit;
    }

    /** What is written out is accepted by `Deserialize`, and makes the end it was, open and at rest. */
    method EndSerialize() returns (ok: bool, state: SerializedState)
      requires Valid()
      modifies `hasRegion
      ensures Valid() && ok == old(hasRegion) && !hasRegion
      ensures ok ==> (state, State()) == SerializeProducer(options, old(State()))
      ensures DeserializeProducer(state) ==
        Some(State().(inTwoPhaseWrite := false, inTransit := false, hasRegion := true, isClosed := false,
                      transferred := false, peerRemote := false))
    {
      ok, hasRegion := hasRegion, false;
      state := SerializedState(options, writeOffset, availableCapacity, peerClosed);
    }

    /** A state outside its range yields no dispatcher; otherwise the end carries on as it was. */
    static method Deserialize(state: SerializedState, ring: array<byte>, port: PortView)
      returns (dispatcher: ProducerDispatcher?)
      requires ring.Length == state.o.capacity < U32_RANGE
      ensures dispatcher == null <==> DeserializeProducer(state).None?
      ensures dispatcher != null ==>
        && fresh(dispatcher) && dispatcher.Valid() && dispatcher.ring == ring && dispatcher.options == state.o
        && dispatcher.State() == UpdateProducer(state.o, DeserializeProducer(state).value, port)
    {
      if state.o.capacity == 0 || state.o.elementBytes == 0 || state.o.capacity < state.o.elementBytes
         || state.offset >= state.o.capacity || state.count > state.o.capacity
      {
        return null;
      }
      dispatcher := new ProducerDispatcher(state.o, ring);
      dispatcher.writeOffset := state.offset;
      dispatcher.availableCapacity := state.count;
      dispatcher.peerClosed := state.peerClosed;
      dispatcher.UpdateSignalsState(port);
    }
  }

  class ConsumerDispatcher {
    const options: Options
    const ring: array<byte>
    var readOffset: nat
    var bytesAvailable: nat
    var inTwoPhaseRead: bool
    var twoPhaseMaxBytesRead: nat
    var newDataAvailable: bool
    var inTransit: bool
    var hasRegion: bool
    var isClosed: bool
    var transferred: bool
    var peerClosed: bool
    var peerRemote: bool

    ghost function State(): Consumer
      reads this
    {
      Consumer(readOffset, bytesAvailable, inTwoPhaseRead, twoPhaseMaxBytesRead, newDataAvailable, inTransit,
               hasRegion, isClosed, transferred, peerClosed, peerRemote)
    }

    ghost predicate Valid()
      reads this
    {
      ConsumerInRange(options, State()) && ring.Length == options.capacity
    }

    constructor (options: Options, ring: array<byte>)
      requires options.Valid() && ring.Length == options.capacity
      ensures Valid() && this.options == options && this.ring == ring && State() == NewConsumer()
    {
      this.options, this.ring := options, ring;
      readOffset, bytesAvailable, inTwoPhaseRead, twoPhaseMaxBytesRead, newDataAvailable := 0, 0, false, 0, false;
      inTransit, hasRegion, isClosed, transferred := false, true, false, false;
      peerClosed, peerRemote := false, false;
    }

    /** Copies up to the end of the ring, then from its front. */
    method CopyOut(n: nat) returns (data: seq<byte>)
      requires Valid() && n <= options.capacity
      ensures data == Loaded(ring[..], readOffset, n)
    {
      var tail := Min(options.capacity - readOffset, n);
      var head := n - tail;
      data := ring[readOffset..readOffset + tail];
      if head > 0 { data := data + ring[..head]; }
    }

    method ReadData(flags: ReadFlags, numBytes: nat)
      returns (result: MojoResult, data: seq<byte>, count: nat, taken: nat)
      requires Valid() && numBytes < U32_RANGE
      modifies this
      ensures Valid()
      ensures ReadOutcome(result, State(), data, count, taken)
        == Spec.ReadData(options, old(State()), ring[..], flags, numBytes)
    {
      hide Loaded;
      result, data, count, taken := InvalidArgument, [], numBytes, 0;
      if !hasRegion || inTransit { return; }
      if inTwoPhaseRead { result := Busy; return; }
      newDataAvailable := false;
      if flags.query {
        if flags.peek || flags.discard { return; }
        result, count := Ok, bytesAvailable;
        return;
      }
      if flags.discard && flags.peek { return; }
      if numBytes % options.elementBytes != 0 { return; }
      if flags.allOrNone && numBytes > bytesAvailable {
        result := if peerClosed then FailedPrecondition else OutOfRange;
        return;
      }
      var n := Min(numBytes, bytesAvailable);
      if n == 0 {
        result := if peerClosed then FailedPrecondition else ShouldWait;
        return;
      }
      if !flags.discard {
        data := CopyOut(n);
      }
      result, count := Ok, n;
      if flags.discard || !flags.peek {
        readOffset := (readOffset + n) % U32_RANGE % options.capacity;
        bytesAvailable := bytesAvailable - n;
        taken := n;
      }
    }

    /** On success the caller may read `exposed` bytes of the ring from `readOffset` on. */
    method BeginReadData() returns (result: MojoResult, exposed: nat)
      requires Valid()
      modifies this
      ensures Valid()
      ensures (result, State(), exposed) == Spec.BeginReadData(options, old(State()))
      ensures result.Ok? ==> 0 < exposed <= bytesAvailable && readOffset + exposed <= ring.Length
    {
      if !hasRegion || inTransit { return InvalidArgument, 0; }
      if inTwoPhaseRead { return Busy, 0; }
      newDataAvailable := false;
      if bytesAvailable == 0 { return if peerClosed then FailedPrecondition else ShouldWait, 0; }
      var n := Min(bytesAvailable, options.capacity - readOffset);
      inTwoPhaseRead := true;
      twoPhaseMaxBytesRead := n;
      return Ok, n;
    }

    /**
     A call that overlaps another is let in as long as the flag is set; it takes bytes a second time and may
     leave a count below zero, which wraps.  An end that was closed in a two-phase read fails a CHECK.
     */
    method EndReadData(n: nat) returns (result: MojoResult)
      requires Valid() && n < U32_RANGE
      modifies this
      ensures (result, State()) == Spec.EndReadData(options, old(State()), n)
      ensures Valid() <==> !(result.Ok? && n > old(bytesAvailable) && bytesAvailable > options.capacity)
      ensures result.Ok? && n <= old(bytesAvailable) ==> bytesAvailable + n == old(bytesAvailable)
      ensures result.CheckFailed? <==> old(inTwoPhaseRead) && !old(inTransit) && !old(hasRegion)
    {
      if !inTwoPhaseRead { return FailedPrecondition; }
      if inTransit { return InvalidArgument; }
      if !hasRegion { return CheckFailed; }
      if n > twoPhaseMaxBytesRead || n % options.elementBytes != 0 {
        inTwoPhaseRead, twoPhaseMaxBytesRead := false, 0;
        return InvalidArgument;
      }
      if n <= bytesAvailable { EndReadCommits(options, State(), n); }
      readOffset := (readOffset + n) % U32_RANGE % options.capacity;
      bytesAvailable := (bytesAvailable + U32_RANGE - n) % U32_RANGE;
      return Ok;
    }

    method DrainControlPort(port: PortView)
      requires options.Valid() && bytesAvailable <= options.capacity
      modifies `bytesAvailable, `peerClosed
      ensures bytesAvailable <= options.capacity
      ensures var d := DrainWrites(options.capacity, old(bytesAvailable), port.messages);
        && bytesAvailable == d.total
        && peerClosed == (old(peerClosed) || d.peerClosed || (d.complete && port.closedAfter))
    {
      var i := 0;
      while i < |port.messages|
        invariant i <= |port.messages| && bytesAvailable <= options.capacity && peerClosed == old(peerClosed)
        invariant DrainWrites(options.capacity, bytesAvailable, port.messages[i..])
               == DrainWrites(options.capacity, old(bytesAvailable), port.messages)
      {
        var m := port.messages[i];
        assert port.messages[i..][1..] == port.messages[i + 1..];
        if !m.DataWasWritten? || bytesAvailable + m.n > options.capacity {
          peerClosed := true;
          return;
        }
        bytesAvailable := bytesAvailable + m.n;
        i := i + 1;
      }
      if port.closedAfter { peerClosed := true; }
    }

    method UpdateSignalsState(port: PortView)
      requires Valid()
      modifies this
      ensures Valid()
      ensures State() == UpdateConsumer(options, old(State()), port)
    {
      var previous := bytesAvailable;
      peerRemote := port.peerRemote;
      if !port.receiving {
        peerClosed := true;
      } else if port.messages != [] && !inTransit {
        DrainControlPort(port);
      }
      if bytesAvailable != previous { newDataAvailable := true; }
    }

    /** Succeeds exactly for an end that is neither in transit nor in a two-phase read, and marks no other. */
    method BeginTransit() returns (ok: bool)
      modifies `inTransit
      ensures (ok, State()) == BeginConsumerTransit(old(State()))
      ensures ok <==> !old(inTransit) && !old(inTwoPhaseRead)
      ensures inTransit <==> old(inTransit) || ok
    {
      if inTransit { return false; }
      inTransit := !inTwoPhaseRead;
      return inTransit;
    }

    /** What is written out is accepted by `Deserialize`, and makes the end it was, open and at rest. */
    method EndSerialize() returns (ok: bool, state: SerializedState)
      requires Valid()
      modifies `hasRegion
      ensures Valid() && ok == old(hasRegion) && !hasRegion
      ensures ok ==> (state, State()) == SerializeConsumer(options, old(State()))
      ensures DeserializeConsumer(state) ==
        Some(State().(inTwoPhaseRead := false, twoPhaseMaxBytesRead := 0, newDataAvailable := bytesAvailable > 0,
                      inTransit := false, hasRegion := true, isClosed := false, transferred := false,
                      peerRemote := false))
    {
      ok, hasRegion := hasRegion, false;
      state := SerializedState(options, readOffset, bytesAvailable, peerClosed);
    }

    static method Deserialize(state: SerializedState, ring: array<byte>, port: PortView)
      returns (dispatcher: ConsumerDispatcher?)
      requires ring.Length == state.o.capacity < U32_RANGE
      ensures dispatcher == null <==> DeserializeConsumer(state).None?
      ensures dispatcher != null ==>
        && fresh(dispatcher) && dispatcher.Valid() && dispatcher.ring == ring && dispatcher.options == state.o
        && dispatcher.State() == UpdateConsumer(state.o, DeserializeConsumer(state).value, port)
    {
      if state.o.capacity == 0 || state.o.elementBytes == 0 || state.o.capacity < state.o.elementBytes
         || state.offset >= state.o.capacity || state.count > state.o.capacity
      {
        return null;
      }
      dispatcher := new ConsumerDispatcher(state.o, ring);
      dispatcher.readOffset := state.offset;
      dispatcher.bytesAvailable := state.count;
      dispatcher.newDataAvailable := state.count > 0;
      dispatcher.peerClosed := state.peerClosed;
      dispatcher.UpdateSignalsState(port);
    }
  }
}
