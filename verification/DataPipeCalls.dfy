/**
 What the calls on a data pipe answer: the result of each, what the four ways of reading do to the stream, and
 how the signals of an end foretell its calls.
 */
module DataPipeCalls {
  import opened Basics
  import opened RingMath
  import opened Division
  import opened DataPipe
  import opened DataPipeProtocol
  import opened DataPipeProof
  import opened DataPipeTheorems

  // ---- results of the consumer's calls ----

  /** The end answers calls on its data at all. */
  predicate ConsumerUsable(c: Consumer) { c.hasRegion && !c.inTransit }

  predicate ProducerUsable(p: Producer) { p.hasRegion && !p.inTransit }

  /** The call gets to look at the data. */
  predicate ConsumerIdle(c: Consumer) { ConsumerUsable(c) && !c.inTwoPhaseRead }

  /** Flags that go together, and a count of whole elements where one is needed. */
  predicate Sensible(o: Options, flags: ReadFlags, n: nat)
    requires o.Valid()
  {
    if flags.query then !flags.peek && !flags.discard else !(flags.peek && flags.discard) && Whole(n, o.elementBytes)
  }

  /** More is insisted on than there is. */
  predicate Short(c: Consumer, flags: ReadFlags, n: nat) { flags.allOrNone && n > c.bytesAvailable }

  /** There is nothing to do, or nothing to do it with. */
  predicate Nothing(c: Consumer, n: nat) { n == 0 || c.bytesAvailable == 0 }

  /** Each result of a read, and that a read without success moves nothing. */
  lemma ReadResults(s: Pipe, flags: ReadFlags, n: nat)
    requires InRange(s)
    ensures var out := ReadData(s.o, s.c, s.ring, flags, n);
      var fair := ConsumerIdle(s.c) && Sensible(s.o, flags, n);
      var taking := fair && !flags.query;
      && (out.result.Busy? <==> ConsumerUsable(s.c) && s.c.inTwoPhaseRead)
      && (out.result.InvalidArgument? <==> !ConsumerUsable(s.c) || (ConsumerIdle(s.c) && !Sensible(s.o, flags, n)))
      && (out.result.Ok? <==> fair && (flags.query || (!Short(s.c, flags, n) && !Nothing(s.c, n))))
      && (out.result.OutOfRange? <==> taking && Short(s.c, flags, n) && !s.c.peerClosed)
      && (out.result.ShouldWait? <==> taking && !Short(s.c, flags, n) && Nothing(s.c, n) && !s.c.peerClosed)
      && (out.result.FailedPrecondition? <==>
            taking && (Short(s.c, flags, n) || Nothing(s.c, n)) && s.c.peerClosed)
      && (!out.result.Ok? ==> out.data == [] && out.count == n && Read(s, flags, n) == s.(c := out.c))
      && out.c.newDataAvailable == (s.c.newDataAvailable && !ConsumerIdle(s.c))
  {
    hide Loaded, NextOffset;
  }

  // ---- the four ways of reading ----

  function Plain(allOrNone: bool): ReadFlags { ReadFlags(false, false, false, allOrNone) }

  function Peek(allOrNone: bool): ReadFlags { ReadFlags(false, true, false, allOrNone) }

  function Skip(allOrNone: bool): ReadFlags { ReadFlags(false, false, true, allOrNone) }

  function Query(): ReadFlags { ReadFlags(true, false, false, false) }

  /** The end after it has been looked at and nothing more. */
  function LookedAt(s: Pipe): Pipe { s.(c := s.c.(newDataAvailable := s.c.newDataAvailable && !ConsumerIdle(s.c))) }

  /** A peek and a query move nothing: the pipe is as it was, but for what counts as new. */
  lemma PeekTakesNothing(s: Pipe, flags: ReadFlags, n: nat)
    requires InRange(s) && (flags.peek || flags.query)
    ensures Read(s, flags, n) == LookedAt(s)
  {
    hide Loaded;
  }

  /** A query reports the bytes available, which are all that is unread once the counts have settled. */
  lemma QueryReports(s: Pipe, n: nat)
    requires Inv(s) && InRange(s) && ConsumerIdle(s.c)
    ensures var out := ReadData(s.o, s.c, s.ring, Query(), n);
      && out.result.Ok? && out.data == [] && out.count == s.c.bytesAvailable <= Unread(s)
      && (Settled(s) ==> out.count == Unread(s))
  {
  }

  /** Looking again shows the same, and a read then returns what was shown and takes it. */
  lemma PeekForetells(s: Pipe, allOrNone: bool, n: nat)
    requires Inv(s) && InRange(s)
    ensures var seen := ReadData(s.o, s.c, s.ring, Peek(allOrNone), n);
      var t := Read(s, Peek(allOrNone), n);
      var again := ReadData(t.o, t.c, t.ring, Peek(allOrNone), n);
      var read := ReadData(t.o, t.c, t.ring, Plain(allOrNone), n);
      && InRange(t) && Inv(t)
      && (again.result, again.data, again.count) == (seen.result, seen.data, seen.count)
      && (read.result, read.data, read.count) == (seen.result, seen.data, seen.count)
      && Read(t, Plain(allOrNone), n).consumed == s.consumed + seen.data
  {
    hide Inv, ReadData, Loaded;
    PeekTakesNothing(s, Peek(allOrNone), n);
    LookedAtKeepsInv(s);
    SameAnswers(s, allOrNone, n);
    ShownIsTaken(LookedAt(s), allOrNone, n);
  }

  /** The end answers as before it was looked at, and shows what it would hand out. */
  lemma SameAnswers(s: Pipe, allOrNone: bool, n: nat)
    requires InRange(s)
    ensures InRange(LookedAt(s))
    ensures var c := LookedAt(s).c;
      var seen := ReadData(s.o, s.c, s.ring, Peek(allOrNone), n);
      var again := ReadData(s.o, c, s.ring, Peek(allOrNone), n);
      var read := ReadData(s.o, c, s.ring, Plain(allOrNone), n);
      && (again.result, again.data, again.count) == (seen.result, seen.data, seen.count)
      && (read.result, read.data, read.count) == (seen.result, seen.data, seen.count)
  {
    hide Loaded, CommitRead;
  }

  lemma ShownIsTaken(s: Pipe, allOrNone: bool, n: nat)
    requires InRange(s)
    ensures Read(s, Plain(allOrNone), n).consumed == s.consumed + ReadData(s.o, s.c, s.ring, Plain(allOrNone), n).data
  {
    hide Loaded, CommitRead;
  }

  lemma LookedAtKeepsInv(s: Pipe)
    requires Inv(s)
    ensures Inv(LookedAt(s))
  {
    hide StreamsInRing;
  }

  /** A read takes exactly what it hands out, and a discard takes the same and hands out nothing. */
  lemma ReadTakesWhatItShows(s: Pipe, allOrNone: bool, n: nat)
    requires Inv(s) && InRange(s) && ReadData(s.o, s.c, s.ring, Plain(allOrNone), n).result.Ok?
    ensures var k := Min(n, s.c.bytesAvailable);
      var next := s.produced[|s.consumed|..][..k];
      var read := ReadData(s.o, s.c, s.ring, Plain(allOrNone), n);
      var skip := ReadData(s.o, s.c, s.ring, Skip(allOrNone), n);
      && 0 < k == read.count == skip.count && read.data == next && skip.data == [] && skip.result.Ok?
      && Read(s, Plain(allOrNone), n) == Read(s, Skip(allOrNone), n)
      && var t := Read(s, Plain(allOrNone), n);
      && t.consumed == s.consumed + next && t.unsentReads == s.unsentReads + [k]
      && t.c.bytesAvailable == s.c.bytesAvailable - k && t.produced == s.produced && t.p == s.p && t.ring == s.ring
  {
    var k := Min(n, s.c.bytesAvailable);
    LoadedIsStream(s.ring, s.produced, |s.consumed|, k);
    hide StreamsInRing, Loaded, GrainInv;
    assert s.produced[|s.consumed|..][..k] == s.produced[|s.consumed|..|s.consumed| + k];
  }

  /**
   In a run a peek foretells later reads: as long as nothing was taken in between, whatever arrived and
   wherever the end was sent, what is shown or handed out later and what was shown agree as far as both go.
   */
  lemma PeekForetellsInRun(states: seq<Pipe>, steps: seq<Step>, i: nat, j: nat)
    requires RunFromCreation(states, steps) && i <= j < |steps| && steps[i].ReadStep? && steps[j].ReadStep?
    requires states[j].consumed == states[i].consumed
    ensures InRange(states[i]) && InRange(states[j])
    ensures var seen := ReadData(states[i].o, states[i].c, states[i].ring, steps[i].flags, steps[i].n).data;
      var later := ReadData(states[j].o, states[j].c, states[j].ring, steps[j].flags, steps[j].n).data;
      seen <= later || later <= seen
  {
    hide Next, ReadData, Inv;
    assert Enabled(states[i], steps[i]) && Enabled(states[j], steps[j]);
    RunKeepsInv(states, steps, i);
    RunKeepsInv(states, steps, j);
    RunGrowsStreams(states, steps, i, j);
    ReadReturnsStream(states[i], steps[i].flags, steps[i].n);
    ReadReturnsStream(states[j], steps[j].flags, steps[j].n);
  }

  /** Each result of the start of a two-phase read; it exposes all there is, or all up to the end of the ring. */
  lemma BeginReadResults(o: Options, c: Consumer)
    requires ConsumerInRange(o, c)
    ensures var (r, d, n) := BeginReadData(o, c);
      && (r.Busy? <==> ConsumerUsable(c) && c.inTwoPhaseRead) && (r.InvalidArgument? <==> !ConsumerUsable(c))
      && (r.Ok? <==> ConsumerIdle(c) && c.bytesAvailable > 0)
      && (r.ShouldWait? <==> ConsumerIdle(c) && c.bytesAvailable == 0 && !c.peerClosed)
      && (r.FailedPrecondition? <==> ConsumerIdle(c) && c.bytesAvailable == 0 && c.peerClosed)
      && (r.Ok? ==> 0 < n == d.twoPhaseMaxBytesRead && (n == c.bytesAvailable || c.readOffset + n == o.capacity))
      && d == c.(newDataAvailable := c.newDataAvailable && !ConsumerIdle(c), inTwoPhaseRead := d.inTwoPhaseRead,
                 twoPhaseMaxBytesRead := d.twoPhaseMaxBytesRead)
      && d.inTwoPhaseRead == (r.Ok? || c.inTwoPhaseRead)
      && (!r.Ok? ==> d.twoPhaseMaxBytesRead == c.twoPhaseMaxBytesRead)
  {
  }

  // ---- results of the producer's calls ----

  predicate ProducerIdle(p: Producer) { ProducerUsable(p) && !p.inTwoPhaseWrite }

  /** Each result of a write; one without success, or of nothing, moves nothing. */
  lemma WriteResults(s: Pipe, data: seq<byte>, allOrNone: bool)
    requires InRange(s)
    ensures var out := WriteData(s.o, s.p, s.ring, data, allOrNone);
      var open := ProducerIdle(s.p) && !s.p.peerClosed;
      var fair := open && Whole(|data|, s.o.elementBytes) && data != [];
      var room := s.p.availableCapacity;
      && (out.result.Busy? <==> ProducerUsable(s.p) && s.p.inTwoPhaseWrite)
      && (out.result.FailedPrecondition? <==> ProducerIdle(s.p) && s.p.peerClosed)
      && (out.result.InvalidArgument? <==> !ProducerUsable(s.p) || (open && !Whole(|data|, s.o.elementBytes)))
      && (out.result.OutOfRange? <==> fair && allOrNone && |data| > room)
      && (out.result.ShouldWait? <==> fair && !allOrNone && room == 0)
      && (out.result.Ok? <==> open && (data == [] || (fair && room > 0 && (allOrNone ==> |data| <= room))))
      && out.count == (if out.result.Ok? then Min(|data|, room) else 0)
      && (out.count == 0 ==> Write(s, data, allOrNone) == s)
      && (out.count > 0 ==>
            var t := Write(s, data, allOrNone);
            && t.produced == s.produced + data[..out.count] && t.unsentWrites == s.unsentWrites + [out.count]
            && t.p.availableCapacity == room - out.count && t.consumed == s.consumed && t.c == s.c)
  {
    hide Stored, NextOffset;
  }

  /** Each result of the start of a two-phase write; it exposes all the room, or all up to the end of the ring. */
  lemma BeginWriteResults(s: Pipe)
    requires InRange(s)
    ensures var (o, p) := (s.o, s.p);
      var (r, q, n) := BeginWriteData(o, p);
      && (r.Busy? <==> ProducerUsable(p) && p.inTwoPhaseWrite) && (r.InvalidArgument? <==> !ProducerUsable(p))
      && (r.FailedPrecondition? <==> ProducerIdle(p) && p.peerClosed)
      && (r.ShouldWait? <==> ProducerIdle(p) && !p.peerClosed && p.availableCapacity == 0)
      && (r.Ok? <==> ProducerIdle(p) && !p.peerClosed && p.availableCapacity > 0)
      && (r.Ok? ==> 0 < n && (n == p.availableCapacity || p.writeOffset + n == o.capacity))
      && q == p.(inTwoPhaseWrite := r.Ok? || p.inTwoPhaseWrite)
      && BeginWrite(s) == (if r.Ok? then s.(p := q, exposed := n, exposedAt := p.writeOffset) else s)
  {
  }

  // ---- the end of a two-phase operation ----

  /** Each result of the end of a two-phase read, which takes the first bytes of what was exposed or nothing. */
  lemma EndReadResults(s: Pipe, n: nat)
    requires Inv(s) && InRange(s) && n < U32_RANGE && s.endingReads == 0
    ensures var r := EndReadData(s.o, s.c, n).0;
      var t := EndRead(s, n);
      var (start, reading) := (s.c.readOffset, s.c.inTwoPhaseRead && s.c.hasRegion);
      var fits := n <= s.c.twoPhaseMaxBytesRead && Whole(n, s.o.elementBytes);
      && (r.FailedPrecondition? <==> !s.c.inTwoPhaseRead) && (r.CheckFailed? <==> s.c.inTwoPhaseRead && !s.c.hasRegion)
      && (r.Ok? <==> reading && fits) && (r.InvalidArgument? <==> reading && !fits)
      && (r.Ok? ==> start + n <= |s.ring| && t.consumed == s.consumed + s.ring[start..start + n]
                    && t.unsentReads == s.unsentReads + [n] && t.c.bytesAvailable == s.c.bytesAvailable - n)
      && (r.InvalidArgument? ==> t == s.(c := s.c.(inTwoPhaseRead := false, twoPhaseMaxBytesRead := 0)))
      && (r.FailedPrecondition? ==> t == s)
  {
    hide StreamsInRing, NextOffset, GrainInv, ProducerInv;
    if EndReadData(s.o, s.c, n).0.Ok? {
      EndReadCommits(s.o, s.c, n);
      assert s.ring[s.c.readOffset..s.c.readOffset + n] == Loaded(s.ring, s.c.readOffset, n);
    }
  }

  /** The sum that `EndWriteData` compares with the capacity does not wrap. */
  lemma EndOfWrite(s: Pipe, n: nat)
    requires Inv(s) && n < U32_RANGE && Whole(n, s.o.elementBytes) && n <= s.p.availableCapacity
    ensures (s.p.writeOffset + n) % U32_RANGE == s.p.writeOffset + n
  {
    hide RingHolds, ProducerInv, ConsumerInv;
    CountFits(s.o, n, n);
    GrainDivides(s.o);
    WholeRemainder(|s.produced|, s.o.capacity, Grain(s.o));
    SumStaysBelow(s.o, s.p.writeOffset, n);
    DivModUnique(s.p.writeOffset + n, U32_RANGE, 0, s.p.writeOffset + n);
  }

  /** Each result of the end of a two-phase write. */
  lemma EndWriteResults(s: Pipe, n: nat)
    requires Inv(s) && InRange(s) && n < U32_RANGE
    ensures var r := EndWriteData(s.o, s.p, n).0;
      var writing := s.p.inTwoPhaseWrite && !s.p.isClosed;
      var fits := Whole(n, s.o.elementBytes) && n <= s.p.availableCapacity && s.p.writeOffset + n <= s.o.capacity;
      && (r.FailedPrecondition? <==> !s.p.inTwoPhaseWrite && !s.p.isClosed && !s.p.inTransit)
      && (r.Ok? <==> writing && fits)
      && (r.InvalidArgument? <==> s.p.isClosed || s.p.inTransit || (writing && !fits))
  {
    if Whole(n, s.o.elementBytes) && n <= s.p.availableCapacity { EndOfWrite(s, n); }
    hide StreamsInRing, CountInv, ConsumerInv, GrainInv, CommitWrite;
  }

  /** It commits the first bytes of what was exposed, or nothing. */
  lemma EndWriteEffects(s: Pipe, n: nat)
    requires Inv(s) && InRange(s) && n < U32_RANGE
    ensures var (r, t, start) := (EndWriteData(s.o, s.p, n).0, EndWrite(s, n), s.p.writeOffset);
      && (r.Ok? ==>
            && start + n <= |s.ring| && t.produced == s.produced + s.ring[start..start + n]
            && t.unsentWrites == s.unsentWrites + [n] && t.p.availableCapacity == s.p.availableCapacity - n)
      && (r.InvalidArgument? && s.p.inTwoPhaseWrite && !s.p.isClosed ==>
            t == s.(p := s.p.(inTwoPhaseWrite := false), exposed := 0))
      && ((r.InvalidArgument? && s.p.isClosed) || r.FailedPrecondition? ==>
            t == s.(exposed := if s.p.inTwoPhaseWrite then s.exposed else 0))
  {
    EndWriteResults(s, n);
    hide StreamsInRing, CountInv, ConsumerInv, ProducerInv, GrainInv, NextOffset;
    if EndWriteData(s.o, s.p, n).0.Ok? {
      assert s.ring[s.p.writeOffset..s.p.writeOffset + n] == Loaded(s.ring, s.p.writeOffset, n);
    }
  }

  // ---- what a two-phase write commits ----

  /** A write is exposed to user code. */
  predicate WriteExposed(s: Pipe) { s.p.inTwoPhaseWrite && s.endingWrites == 0 && !s.p.isClosed }

  /** Until it is ended or its end is closed, only the stores of user code change the ring. */
  lemma OnlyPokesChangeRing(s: Pipe, step: Step)
    requires Core(s) && Enabled(s, step) && WriteExposed(s) && !step.EndWriteStep? && !step.CloseProducerStep?
    ensures var t := Next(s, step);
      && WriteExposed(t) && t.produced == s.produced && t.exposed == s.exposed && t.exposedAt == s.exposedAt
      && t.p.writeOffset == s.p.writeOffset
      && t.ring == if step.PokeStep? then s.ring[s.exposedAt + step.i := step.b] else s.ring
  {
    hide StreamsInRing, CountInv, ConsumerInv, ReadData, EndReadData, BeginReadData, UpdateConsumer, ConsumerPort,
         UpdateP, TransitC, Stored;
    match step
    case ConsumerTransitStep(t) => ConsumerTransitLeavesWriting(s, t);
    case UpdateProducerStep(k, remote) => UpdateLeavesWriting(s, k, remote);
    case _ =>
  }

  lemma UpdateLeavesWriting(s: Pipe, k: nat, remote: bool)
    requires k <= |s.toProducer|
    ensures var t := UpdateP(s, k, remote);
      && t.p == s.p.(availableCapacity := t.p.availableCapacity, peerClosed := t.p.peerClosed,
                     peerRemote := t.p.peerRemote)
      && t == s.(p := t.p, toProducer := t.toProducer)
  {
    hide DrainReads, ProducerPort;
    var p1 := UpdateProducer(s.o, s.p, ProducerPort(s, k, remote));
    assert p1 == s.p.(availableCapacity := p1.availableCapacity, peerClosed := p1.peerClosed,
                      peerRemote := p1.peerRemote);
  }

  lemma ConsumerTransitLeavesWriting(s: Pipe, t: Transit)
    requires ConsumerTransitEnabled(s, t)
    ensures var u := TransitC(s, t);
      && u.p == s.p && u.ring == s.ring && u.produced == s.produced && u.exposed == s.exposed
      && u.exposedAt == s.exposedAt && u.endingWrites == s.endingWrites
  {
    hide UpdateConsumer, ConsumerPort;
  }

  /** The byte at position `q` of the exposed buffer after steps `i` to before `k`, if it was `b` before them. */
  function LastStored(steps: seq<Step>, i: nat, k: nat, q: nat, b: byte): byte
    requires i <= k <= |steps|
    decreases k
  {
    if i == k then b
    else if steps[k - 1].PokeStep? && steps[k - 1].i == q then steps[k - 1].b
    else LastStored(steps, i, k - 1, q, b)
  }

  predicate StaysExposed(steps: seq<Step>, i: nat, k: nat)
    requires i <= k <= |steps|
  {
    forall j :: i <= j < k ==> !steps[j].EndWriteStep? && !steps[j].CloseProducerStep?
  }

  /** The same buffer is exposed, and nothing was committed. */
  predicate SameExposure(s: Pipe, t: Pipe) {
    && WriteExposed(t) && t.produced == s.produced && t.exposed == s.exposed && t.exposedAt == s.exposedAt
    && t.p.writeOffset == s.p.writeOffset && |t.ring| == |s.ring|
  }

  /** Since `s` the same buffer is exposed, with byte `b` at position `q`. */
  predicate Exposes(s: Pipe, t: Pipe, q: nat, b: byte) {
    SameExposure(s, t) && s.exposedAt + q < |s.ring| && t.ring[s.exposedAt + q] == b
  }

  lemma ExposesItself(s: Pipe, q: nat)
    requires WriteExposed(s) && s.exposedAt + q < |s.ring|
    ensures Exposes(s, s, q, s.ring[s.exposedAt + q])
  {
  }

  lemma StoreStays(s: Pipe, t: Pipe, step: Step, q: nat, b: byte)
    requires Inv(t) && Enabled(t, step) && Exposes(s, t, q, b) && !step.EndWriteStep? && !step.CloseProducerStep?
    ensures Exposes(s, Next(t, step), q, if step.PokeStep? && step.i == q then step.b else b)
  {
    InvHasCore(t);
    hide Next, Inv, Core;
    OnlyPokesChangeRing(t, step);
  }

  lemma {:induction false} StoresStay(states: seq<Pipe>, steps: seq<Step>, i: nat, k: nat, q: nat)
    requires RunFromCreation(states, steps) && i <= k < |states| && WriteExposed(states[i]) && StaysExposed(steps, i, k)
    requires states[i].exposedAt + q < |states[i].ring|
    ensures Exposes(states[i], states[k], q, LastStored(steps, i, k, q, states[i].ring[states[i].exposedAt + q]))
    decreases k
  {
    hide Next, Enabled, Inv, Init, Orderly, WriteExposed, Exposes;
    if i == k {
      ExposesItself(states[i], q);
    } else {
      StoresStay(states, steps, i, k - 1, q);
      RunKeepsInv(states, steps, k - 1);
      assert Enabled(states[k - 1], steps[k - 1]) && states[k] == Next(states[k - 1], steps[k - 1]);
      var b := LastStored(steps, i, k - 1, q, states[i].ring[states[i].exposedAt + q]);
      StoreStays(states[i], states[k - 1], steps[k - 1], q, b);
    }
  }

  /**
   What `EndWriteData` commits is what user code stored last at each position since `BeginWriteData`, whatever
   else happened in between, and what had been there where it stored nothing.
   */
  lemma CommitsWhatWasStored(states: seq<Pipe>, steps: seq<Step>, i: nat, k: nat, q: nat)
    requires RunFromCreation(states, steps) && i < k < |steps| && steps[i].BeginWriteStep? && steps[k].EndWriteStep?
    requires ProducerIdle(states[i].p) && InRange(states[i]) && BeginWriteData(states[i].o, states[i].p).0.Ok?
    requires StaysExposed(steps, i + 1, k) && InRange(states[k]) && steps[k].n < U32_RANGE
    requires EndWriteData(states[k].o, states[k].p, steps[k].n).0.Ok? && q < steps[k].n
    ensures states[i].p.writeOffset + q < |states[i].ring| && |states[i].produced| + q < |states[k + 1].produced|
    ensures states[k + 1].produced[|states[i].produced| + q] ==
      LastStored(steps, i + 1, k, q, states[i].ring[states[i].p.writeOffset + q])
  {
    hide Next, Enabled, Inv, Init, Orderly, EndWrite, EndWriteData, BeginWriteData, BeginWrite, SameExposure;
    RunKeepsInv(states, steps, i);
    RunKeepsInv(states, steps, k);
    BothCalls(states, steps, i, k);
    BeginExposes(states[i]);
    StoresStay(states, steps, i + 1, k, 0);
    SameAt(states[i + 1], states[k]);
    var (s, n) := (states[k], steps[k].n);
    EndWriteEffects(s, n);
    StoresStay(states, steps, i + 1, k, q);
    ByteOfStretch(s.produced, s.ring, s.p.writeOffset, n, q);
  }

  lemma BothCalls(states: seq<Pipe>, steps: seq<Step>, i: nat, k: nat)
    requires Run(states, steps) && i < k < |steps| && steps[i].BeginWriteStep? && steps[k].EndWriteStep?
    ensures Enabled(states[i], steps[i]) && Enabled(states[k], steps[k])
    ensures states[i + 1] == BeginWrite(states[i]) && states[k + 1] == EndWrite(states[k], steps[k].n)
  {
  }

  lemma SameAt(s: Pipe, t: Pipe)
    requires SameExposure(s, t)
    ensures WriteExposed(t) && t.produced == s.produced && t.exposedAt == s.exposedAt && |t.ring| == |s.ring|
    ensures t.p.writeOffset == s.p.writeOffset
  {
  }

  lemma ByteOfStretch(a: seq<byte>, ring: seq<byte>, start: nat, n: nat, q: nat)
    requires q < n && start + n <= |ring|
    ensures (a + ring[start..start + n])[|a| + q] == ring[start + q]
  {
  }

  lemma BeginExposes(s: Pipe)
    requires Inv(s) && InRange(s) && BeginWriteData(s.o, s.p).0.Ok?
    ensures var t := BeginWrite(s);
      && WriteExposed(t) && t.produced == s.produced && t.ring == s.ring
      && t.exposedAt == s.p.writeOffset == t.p.writeOffset < |t.ring|
  {
    hide StreamsInRing;
  }

  // ---- closure ----

  /** An end that was closed refuses every call but the end of a two-phase read. */
  lemma ClosedRefuses(s: Pipe, data: seq<byte>, allOrNone: bool, flags: ReadFlags, n: nat)
    requires InRange(s) && n < U32_RANGE
    ensures !s.p.isClosed && !s.p.inTransit ==>
      var t := CloseP(s);
      && ProducerPortClosed(t) == !s.p.transferred && t.c == s.c && t.exposed == 0
      && WriteData(t.o, t.p, t.ring, data, allOrNone).result.InvalidArgument?
      && BeginWriteData(t.o, t.p).0.InvalidArgument? && EndWriteData(t.o, t.p, n).0.InvalidArgument?
    ensures !s.c.isClosed && !s.c.inTransit ==>
      var t := CloseC(s);
      && ConsumerPortClosed(t) == !s.c.transferred && t.p == s.p
      && ReadData(t.o, t.c, t.ring, flags, n).result.InvalidArgument? && BeginReadData(t.o, t.c).0.InvalidArgument?
    ensures (s.p.isClosed || s.p.inTransit ==> CloseP(s) == s) && (s.c.isClosed || s.c.inTransit ==> CloseC(s) == s)
  {
  }

  /** Once a producer is closed, its consumer learns so when it has taken all the counts that were sent. */
  lemma ConsumerLearnsOfClosure(s: Pipe, remote: bool)
    requires Inv(s) && !s.p.isClosed && !s.p.inTransit && !s.c.isClosed && !s.c.inTransit
    ensures var t := UpdateC(CloseP(s), |s.toConsumer|, remote);
      && t.c.peerClosed && PeerClosed in ConsumerSignals(t.c).satisfied
      && t.c.bytesAvailable == s.c.bytesAvailable + Sum(s.toConsumer) && t.toConsumer == []
  {
    hide StreamsInRing, GrainInv, UpdateConsumer, ConsumerPort;
    var t := CloseP(s);
    UnreadBounded(s);
    ConsumerAfterUpdate(t, |t.toConsumer|, remote);
    assert t.toConsumer[..|t.toConsumer|] == t.toConsumer && t.toConsumer[|t.toConsumer|..] == [];
  }

  lemma ProducerLearnsOfClosure(s: Pipe, remote: bool)
    requires Inv(s) && !s.c.isClosed && !s.c.inTransit && !s.p.isClosed && !s.p.inTransit
    ensures var t := UpdateP(CloseC(s), |s.toProducer|, remote);
      t.p.peerClosed && PeerClosed in ProducerSignals(t.p).satisfied && t.toProducer == []
  {
    hide StreamsInRing, GrainInv, UpdateProducer, ProducerPort;
    var t := CloseC(s);
    UnreadBounded(s);
    ProducerAfterUpdate(t, |t.toProducer|, remote);
    assert t.toProducer[|t.toProducer|..] == [];
  }
}
