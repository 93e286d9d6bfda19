/**
 What the data pipe protocol guarantees over whole runs: stream safety, conservation of capacity,
 stability of exposed buffers, invisibility of transfers, finality of closure, whole elements.
 */
module DataPipeTheorems {
  import opened Basics
  import opened RingMath
  import opened DataPipe
  import opened DataPipeProtocol
  import opened DataPipeProof

  /** A run: each state follows from the one before by an enabled step. */
  predicate Run(states: seq<Pipe>, steps: seq<Step>) {
    && |states| == |steps| + 1
    && forall i {:trigger steps[i]} :: 0 <= i < |steps| ==>
         Enabled(states[i], steps[i]) && states[i + 1] == Next(states[i], steps[i])
  }

  /** A run of a pipe whose sums stay exact and whose callers never let two calls that end an operation overlap. */
  predicate RunFromCreation(states: seq<Pipe>, steps: seq<Step>) {
    && Run(states, steps) && Init(states[0])
    && forall i {:trigger steps[i]} :: 0 <= i < |steps| ==> Orderly(states[i], steps[i])
  }

  lemma InitInv(s: Pipe)
    requires Init(s)
    ensures Inv(s)
  {
    GrainDivides(s.o);
  }

  lemma {:induction false} RunKeepsInv(states: seq<Pipe>, steps: seq<Step>, i: nat)
    requires RunFromCreation(states, steps) && i < |states|
    ensures Inv(states[i])
  {
    hide Next, Enabled, Inv;
    if i == 0 {
      InitInv(states[0]);
    } else {
      RunKeepsInv(states, steps, i - 1);
      assert Enabled(states[i - 1], steps[i - 1]) && Orderly(states[i - 1], steps[i - 1]);
      StepKeepsInv(states[i - 1], steps[i - 1]);
    }
  }

  // ---- stream safety ----

  lemma StepGrowsStreams(s: Pipe, step: Step)
    requires Enabled(s, step)
    ensures var s' := Next(s, step);
      s.o == s'.o && s.produced <= s'.produced && s.consumed <= s'.consumed
  {
    hide WriteData, ReadData, EndWriteData, EndReadData, UpdateProducer, UpdateConsumer, BeginWriteData, BeginReadData,
         ProducerPort, ConsumerPort, Loaded, DeserializeProducer, DeserializeConsumer;
    match step
    case WriteStep(_, _) =>
    case EndWriteStep(_) =>
    case ReadStep(_, _) =>
    case EndReadStep(_) =>
    case UpdateProducerStep(_, _) =>
    case UpdateConsumerStep(_, _) =>
    case ProducerTransitStep(_) =>
    case ConsumerTransitStep(_) =>
    case _ =>
  }

  lemma {:induction false} RunGrowsStreams(states: seq<Pipe>, steps: seq<Step>, i: nat, j: nat)
    requires Run(states, steps) && i <= j < |states|
    ensures states[i].o == states[j].o
    ensures states[i].produced <= states[j].produced && states[i].consumed <= states[j].consumed
    decreases j
  {
    hide Next, Enabled;
    if i < j {
      RunGrowsStreams(states, steps, i, j - 1);
      assert Enabled(states[j - 1], steps[j - 1]);
      StepGrowsStreams(states[j - 1], steps[j - 1]);
    }
  }

  /**
   In every run, whatever has been consumed is a prefix of what had been committed, now and at any
   later time, however often the ring wrapped.
   */
  lemma StreamSafety(states: seq<Pipe>, steps: seq<Step>, i: nat, j: nat)
    requires RunFromCreation(states, steps) && i <= j < |states|
    ensures states[i].consumed <= states[i].produced <= states[j].produced
  {
    hide Next, Enabled;
    RunKeepsInv(states, steps, i);
    RunGrowsStreams(states, steps, i, j);
  }

  /** What a read or a peek hands to its caller is the next stretch of the committed stream. */
  lemma ReadReturnsStream(s: Pipe, flags: ReadFlags, n: nat)
    requires Inv(s) && InRange(s)
    ensures var out := ReadData(s.o, s.c, s.ring, flags, n);
      && |s.consumed| + |out.data| <= |s.produced|
      && out.data == s.produced[|s.consumed|..|s.consumed| + |out.data|]
      && (out.result.Ok? && !flags.query && !flags.discard ==> |out.data| == out.count > 0)
  {
    var out := ReadData(s.o, s.c, s.ring, flags, n);
    LoadedIsStream(s.ring, s.produced, |s.consumed|, |out.data|);
  }

  /** The buffer exposed by a two-phase read is the next stretch of the committed stream. */
  lemma TwoPhaseReadSeesStream(s: Pipe)
    requires Core(s) && s.c.inTwoPhaseRead && s.endingReads == 0
    ensures var (start, n) := (s.c.readOffset, s.c.twoPhaseMaxBytesRead);
      && start + n <= |s.ring| && |s.consumed| + n <= |s.produced|
      && s.ring[start..start + n] == s.produced[|s.consumed|..|s.consumed| + n]
  {
    var n := s.c.twoPhaseMaxBytesRead;
    LoadedIsStream(s.ring, s.produced, |s.consumed|, n);
    assert s.ring[s.c.readOffset..s.c.readOffset + n] == Loaded(s.ring, s.c.readOffset, n);
  }

  // ---- conservation ----

  /** What the producer does not have is unread, on its way back, or lost; and so its offset follows the consumer's. */
  lemma Accounting(states: seq<Pipe>, steps: seq<Step>, i: nat)
    requires RunFromCreation(states, steps) && i < |states|
    ensures var s := states[i];
      && s.p.availableCapacity + Sum(s.unsentWrites) + Sum(s.toConsumer) + s.c.bytesAvailable
           + Sum(s.unsentReads) + Sum(s.toProducer) + s.lostWrites + s.lostReads == s.o.capacity
      && s.o.Valid() && s.p.writeOffset == (s.c.readOffset + Unread(s)) % s.o.capacity
  {
    hide Next, Enabled, GrainInv;
    RunKeepsInv(states, steps, i);
    var s := states[i];
    SlotStep(|s.consumed|, Unread(s), s.o.capacity);
  }

  /** Ports stay closed, and while both are open only a transfer that completes while counts are owed loses them. */
  lemma OnlyTransfersLose(s: Pipe, step: Step)
    requires Core(s) && Enabled(s, step) && BothOpen(Next(s, step))
    ensures BothOpen(s)
    ensures Next(s, step).lostWrites ==
      s.lostWrites + (if step == ProducerTransitStep(CompleteTransit) then Sum(s.unsentWrites) else 0)
    ensures Next(s, step).lostReads ==
      s.lostReads + (if step == ConsumerTransitStep(CompleteTransit) then Sum(s.unsentReads) else 0)
  {
    hide Core, WriteData, ReadData, EndWriteData, EndReadData, BeginWriteData, BeginReadData, UpdateP, UpdateC, Sum;
    if ProducerPortClosed(s) { ProducerPortStaysClosed(s, step); }
    if ConsumerPortClosed(s) { ConsumerPortStaysClosed(s, step); }
    match step
    case ProducerTransitStep(t) => ProducerTransitLeavesConsumer(s, t);
    case ConsumerTransitStep(t) => ConsumerTransitLeavesProducer(s, t);
    case UpdateProducerStep(k, remote) => UpdatesLeavePeers(s, k, remote);
    case UpdateConsumerStep(k, remote) => UpdatesLeavePeers(s, k, remote);
    case _ =>
  }

  lemma ProducerPortStaysClosed(s: Pipe, step: Step)
    requires Core(s) && Enabled(s, step) && ProducerPortClosed(s)
    ensures ProducerPortClosed(Next(s, step))
  {
    hide StreamsInRing, CountInv, ConsumerInv, ReadData, EndReadData, BeginReadData, UpdateC, TransitC, DrainReads,
         ProducerPort;
    if step.ConsumerTransitStep? { ConsumerTransitLeavesProducer(s, step.t); }
    if step.UpdateConsumerStep? { UpdatesLeavePeers(s, step.k, step.remote); }
  }

  lemma ConsumerPortStaysClosed(s: Pipe, step: Step)
    requires Core(s) && Enabled(s, step) && ConsumerPortClosed(s)
    ensures ConsumerPortClosed(Next(s, step))
  {
    hide StreamsInRing, CountInv, ProducerInv, WriteData, EndWriteData, BeginWriteData, UpdateP, TransitP, DrainWrites,
         ConsumerPort;
    if step.ProducerTransitStep? { ProducerTransitLeavesConsumer(s, step.t); }
    if step.UpdateProducerStep? { UpdatesLeavePeers(s, step.k, step.remote); }
  }

  lemma UpdatesLeavePeers(s: Pipe, k: nat, remote: bool)
    ensures k <= |s.toProducer| ==>
      var t := UpdateP(s, k, remote);
      t.c == s.c && t.lostWrites == s.lostWrites && t.lostReads == s.lostReads
    ensures k <= |s.toConsumer| ==>
      var t := UpdateC(s, k, remote);
      t.p == s.p && t.lostWrites == s.lostWrites && t.lostReads == s.lostReads
  {
  }

  lemma ProducerTransitLeavesConsumer(s: Pipe, t: Transit)
    requires ProducerTransitEnabled(s, t)
    ensures TransitP(s, t).c == s.c && TransitP(s, t).carriedConsumer == s.carriedConsumer
    ensures TransitP(s, t).lostReads == s.lostReads
    ensures !t.CompleteTransit? ==> TransitP(s, t).lostWrites == s.lostWrites
  {
  }

  lemma ConsumerTransitLeavesProducer(s: Pipe, t: Transit)
    requires ConsumerTransitEnabled(s, t)
    ensures TransitC(s, t).p == s.p && TransitC(s, t).carriedProducer == s.carriedProducer
    ensures TransitC(s, t).lostWrites == s.lostWrites
    ensures !t.CompleteTransit? ==> TransitC(s, t).lostReads == s.lostReads
  {
  }

  /** No transfer before step `i` completed while its end still owed a count. */
  predicate NothingOwed(states: seq<Pipe>, steps: seq<Step>, i: nat)
    requires |states| == |steps| + 1 && i < |states|
  {
    forall j {:trigger steps[j]} :: 0 <= j < i ==>
      && (steps[j] == ProducerTransitStep(CompleteTransit) ==> Sum(states[j].unsentWrites) == 0)
      && (steps[j] == ConsumerTransitStep(CompleteTransit) ==> Sum(states[j].unsentReads) == 0)
  }

  lemma {:induction false} LostIff(states: seq<Pipe>, steps: seq<Step>, i: nat)
    requires RunFromCreation(states, steps) && i < |states| && BothOpen(states[i])
    ensures states[i].lostWrites + states[i].lostReads == 0 <==> NothingOwed(states, steps, i)
  {
    hide Next, Enabled, Sum;
    if i > 0 {
      RunKeepsInv(states, steps, i - 1);
      hide Inv;
      assert Enabled(states[i - 1], steps[i - 1]);
      OnlyTransfersLose(states[i - 1], steps[i - 1]);
      LostIff(states, steps, i - 1);
    }
  }

  /**
   While both ends are open, free capacity, available bytes and the counts on their way add up to the
   capacity, if and only if no end was ever transferred while it still owed a count.
   */
  lemma ConservationIff(states: seq<Pipe>, steps: seq<Step>, i: nat)
    requires RunFromCreation(states, steps) && i < |states| && BothOpen(states[i])
    ensures var s := states[i];
      (s.p.availableCapacity + Sum(s.unsentWrites) + Sum(s.toConsumer) + s.c.bytesAvailable
         + Sum(s.unsentReads) + Sum(s.toProducer) == s.o.capacity)
      <==> NothingOwed(states, steps, i)
  {
    hide Next, Enabled, Sum;
    Accounting(states, steps, i);
    LostIff(states, steps, i);
  }

  /** Between peers that follow the protocol no drain meets an error branch, at any arrival pattern. */
  lemma DrainsNeverFail(states: seq<Pipe>, steps: seq<Step>, i: nat, k: nat)
    requires RunFromCreation(states, steps) && i < |states|
    ensures var s := states[i];
      && (k <= |s.toProducer| ==>
            DrainReads(s.o.capacity, s.p.availableCapacity, Reads(s.toProducer[..k]))
              == Drained(s.p.availableCapacity + Sum(s.toProducer[..k]), false, true))
      && (k <= |s.toConsumer| ==>
            DrainWrites(s.o.capacity, s.c.bytesAvailable, Writes(s.toConsumer[..k]))
              == Drained(s.c.bytesAvailable + Sum(s.toConsumer[..k]), false, true))
  {
    hide Next, Enabled;
    RunKeepsInv(states, steps, i);
    var s := states[i];
    if k <= |s.toProducer| {
      SumSplit(s.toProducer, k);
      DrainReadsSums(s.o.capacity, s.p.availableCapacity, s.toProducer[..k]);
    }
    if k <= |s.toConsumer| {
      SumSplit(s.toConsumer, k);
      DrainWritesSums(s.o.capacity, s.c.bytesAvailable, s.toConsumer[..k]);
    }
  }

  /** No count is owed or on its way. */
  predicate Settled(s: Pipe) {
    && s.unsentWrites == [] && s.toConsumer == [] && s.unsentReads == [] && s.toProducer == []
    && s.lostWrites == 0 && s.lostReads == 0 && BothOpen(s)
  }

  /** Once counts have settled the pipe is a bounded queue: a write takes exactly what the capacity leaves. */
  lemma SettledWriteFills(s: Pipe, data: seq<byte>, allOrNone: bool)
    requires Inv(s) && InRange(s) && Settled(s) && data != [] && |data| % s.o.elementBytes == 0
    requires s.p.hasRegion && !s.p.inTransit && !s.p.inTwoPhaseWrite && !s.p.peerClosed
    ensures var room := s.o.capacity - Unread(s);
      var out := WriteData(s.o, s.p, s.ring, data, allOrNone);
      && out.result == (if allOrNone && |data| > room then OutOfRange else if room == 0 then ShouldWait else Ok)
      && out.count == (if out.result.Ok? then Min(|data|, room) else 0)
      && Write(s, data, allOrNone).produced == s.produced + data[..out.count]
  {
    assert s.p.availableCapacity == s.o.capacity - Unread(s);
  }

  /** And a read returns exactly the oldest unread bytes, as many as were asked for and are there. */
  lemma SettledReadTakes(s: Pipe, n: nat, allOrNone: bool)
    requires Inv(s) && InRange(s) && Settled(s) && n > 0 && n % s.o.elementBytes == 0
    requires s.c.hasRegion && !s.c.inTransit && !s.c.inTwoPhaseRead && !s.c.peerClosed
    ensures var unread := s.produced[|s.consumed|..];
      var out := ReadData(s.o, s.c, s.ring, ReadFlags(false, false, false, allOrNone), n);
      && out.result == (if allOrNone && n > |unread| then OutOfRange else if unread == [] then ShouldWait else Ok)
      && out.data == (if out.result.Ok? then unread[..Min(n, |unread|)] else [])
      && Read(s, ReadFlags(false, false, false, allOrNone), n).consumed == s.consumed + out.data
  {
    assert s.c.bytesAvailable == Unread(s);
    LoadedIsStream(s.ring, s.produced, |s.consumed|, Min(n, Unread(s)));
  }

  // ---- two-phase stability ----

  /** A byte that is unread at both ends of a stretch of a run was not touched in between. */
  lemma UnreadBytesStable(states: seq<Pipe>, steps: seq<Step>, i: nat, j: nat, pos: nat)
    requires RunFromCreation(states, steps) && i <= j < |states|
    requires |states[j].consumed| <= pos < |states[i].produced|
    ensures |states[i].ring| == |states[j].ring| > 0
    ensures states[i].ring[Slot(pos, |states[i].ring|)] == states[j].ring[Slot(pos, |states[i].ring|)]
  {
    hide Next, Enabled;
    RunKeepsInv(states, steps, i);
    RunKeepsInv(states, steps, j);
    RunGrowsStreams(states, steps, i, j);
    assert states[i].produced[pos] == states[j].produced[pos];
  }

  predicate ReadExposed(s: Pipe) { s.c.inTwoPhaseRead && s.endingReads == 0 }

  lemma ExposureLasts(s: Pipe, step: Step)
    requires Core(s) && Enabled(s, step) && ReadExposed(s) && !step.EndReadStep?
    ensures var s' := Next(s, step);
      ReadExposed(s') && s'.consumed == s.consumed && s'.c.readOffset == s.c.readOffset
      && s'.c.twoPhaseMaxBytesRead == s.c.twoPhaseMaxBytesRead
  {
    hide StreamsInRing, ProducerInv, WriteData, EndWriteData, UpdateProducer, BeginWriteData;
    match step
    case UpdateConsumerStep(k, remote) => ConsumerAfterUpdate(s, k, remote);
    case _ =>
  }

  lemma {:induction false} ExposureLastsInRun(states: seq<Pipe>, steps: seq<Step>, i: nat, j: nat)
    requires RunFromCreation(states, steps) && i <= j < |states| && ReadExposed(states[i])
    requires forall k | i <= k < j :: !steps[k].EndReadStep?
    ensures ReadExposed(states[j]) && states[j].consumed == states[i].consumed
    ensures states[j].c.readOffset == states[i].c.readOffset
    ensures states[j].c.twoPhaseMaxBytesRead == states[i].c.twoPhaseMaxBytesRead
    decreases j
  {
    hide Next, Enabled, Core, GrainInv;
    if i < j {
      ExposureLastsInRun(states, steps, i, j - 1);
      RunKeepsInv(states, steps, j - 1);
      assert Enabled(states[j - 1], steps[j - 1]);
      ExposureLasts(states[j - 1], steps[j - 1]);
    }
  }

  /** From `BeginReadData` until `EndReadData` no step of either end changes a byte of the exposed buffer. */
  lemma TwoPhaseReadStable(states: seq<Pipe>, steps: seq<Step>, i: nat, j: nat)
    requires RunFromCreation(states, steps) && i <= j < |states| && ReadExposed(states[i])
    requires forall k | i <= k < j :: !steps[k].EndReadStep?
    ensures var (start, n) := (states[i].c.readOffset, states[i].c.twoPhaseMaxBytesRead);
      && start + n <= |states[i].ring| == |states[j].ring|
      && states[j].ring[start..start + n] == states[i].ring[start..start + n]
  {
    hide Next, Enabled;
    RunKeepsInv(states, steps, i);
    RunKeepsInv(states, steps, j);
    RunGrowsStreams(states, steps, i, j);
    ExposureLastsInRun(states, steps, i, j);
    TwoPhaseReadSeesStream(states[i]);
    TwoPhaseReadSeesStream(states[j]);
    var (from, n) := (|states[i].consumed|, states[i].c.twoPhaseMaxBytesRead);
    assert states[i].produced[from..from + n] == states[j].produced[from..from + n];
  }

  /** The buffer exposed by a two-phase write holds no byte the consumer may still read. */
  lemma WriteExposureDisjoint(s: Pipe, k: nat, pos: nat)
    requires Inv(s) && k < s.exposed && |s.consumed| <= pos < |s.produced|
    ensures s.p.writeOffset + k < |s.ring| && Slot(pos, |s.ring|) != s.p.writeOffset + k
  {
    SlotAdvance(|s.produced|, k, |s.ring|);
    SlotsDistinct(pos, |s.produced| + k, |s.ring|);
  }

  /** In no reachable state is an end both in transit and in a two-phase operation. */
  lemma TransitExcludesTwoPhase(states: seq<Pipe>, steps: seq<Step>, i: nat)
    requires RunFromCreation(states, steps) && i < |states|
    ensures !(states[i].p.inTransit && states[i].p.inTwoPhaseWrite)
    ensures !(states[i].c.inTransit && states[i].c.inTwoPhaseRead)
  {
    hide Next, Enabled;
    RunKeepsInv(states, steps, i);
  }

  // ---- closure ----

  /** An open consumer that knows its peer is closed has counted every byte whose notification was sent. */
  lemma ClosureSeenLast(states: seq<Pipe>, steps: seq<Step>, i: nat)
    requires RunFromCreation(states, steps) && i < |states| && states[i].c.peerClosed && !ConsumerPortClosed(states[i])
    ensures var s := states[i];
      && ProducerPortClosed(s) && s.toConsumer == []
      && Unread(s) == s.c.bytesAvailable + Sum(s.unsentWrites) + s.lostWrites
      && (s.unsentWrites == [] && s.lostWrites == 0 ==> s.c.bytesAvailable == Unread(s))
  {
    hide Next, Enabled;
    RunKeepsInv(states, steps, i);
  }

  /** Nothing is left to read and nothing more can come. */
  predicate Exhausted(s: Pipe) { s.c.peerClosed && s.c.bytesAvailable == 0 }

  lemma ProducerTransitKeepsClosure(s: Pipe, t: Transit)
    requires Core(s) && ProducerTransitEnabled(s, t) && s.p.peerClosed
    ensures TransitP(s, t).p.peerClosed
  {
    hide StreamsInRing, CountInv, ConsumerInv, DrainReads;
  }

  lemma ProducerClosureIsFinal(s: Pipe, step: Step)
    requires Core(s) && Enabled(s, step) && s.p.peerClosed
    ensures Next(s, step).p.peerClosed
  {
    hide StreamsInRing, ProducerInv, ConsumerInv, ReadData, EndReadData, UpdateConsumer, BeginReadData, Stored,
         NextOffset, ConsumerPort, DrainReads, TransitP;
    match step
    case ProducerTransitStep(t) => ProducerTransitKeepsClosure(s, t);
    case _ =>
  }

  lemma ConsumerTransitStaysExhausted(s: Pipe, t: Transit)
    requires Core(s) && ConsumerTransitEnabled(s, t) && Exhausted(s)
    ensures Exhausted(TransitC(s, t))
  {
    hide StreamsInRing, ProducerInv, Sum;
    InvInRange(s);
    match t
    case CancelTransit(k, remote) =>
      UpdateStaysExhausted(s.(c := s.c.(inTransit := false), carriedConsumer := None), k, remote);
    case Deserialize(k, remote) =>
      UpdateStaysExhausted(
        s.(c := DeserializeConsumer(s.carriedConsumer.value).value, carriedConsumer := None), k, remote);
    case _ =>
  }

  lemma UpdateStaysExhausted(s: Pipe, k: nat, remote: bool)
    requires s.c.bytesAvailable == 0 && k <= |s.toConsumer|
    requires ConsumerPortClosed(s) || (ProducerPortClosed(s) && s.toConsumer == [])
    ensures Exhausted(UpdateC(s, k, remote))
  {
  }

  lemma ConsumerClosureIsFinal(s: Pipe, step: Step)
    requires Core(s) && Enabled(s, step) && Exhausted(s) && Orderly(s, step)
    ensures Exhausted(Next(s, step))
  {
    hide StreamsInRing, ProducerInv, CountInv, WriteData, EndWriteData, UpdateProducer, BeginWriteData, Loaded,
         NextOffset, ProducerPort, UpdateC, TransitC;
    match step
    case EndReadStep(n) =>
      if EndReadData(s.o, s.c, n).0.Ok? { EndReadCommits(s.o, s.c, n); }
    case ConsumerTransitStep(t) => ConsumerTransitStaysExhausted(s, t);
    case UpdateConsumerStep(k, remote) => UpdateStaysExhausted(s, k, remote);
    case _ =>
  }

  lemma {:induction false} ClosureIsFinalInRun(states: seq<Pipe>, steps: seq<Step>, i: nat, j: nat)
    requires RunFromCreation(states, steps) && i <= j < |states|
    ensures states[i].p.peerClosed ==> states[j].p.peerClosed
    ensures Exhausted(states[i]) ==> Exhausted(states[j])
    decreases j
  {
    hide Next, Enabled, Core, GrainInv;
    if i < j {
      ClosureIsFinalInRun(states, steps, i, j - 1);
      RunKeepsInv(states, steps, j - 1);
      assert Enabled(states[j - 1], steps[j - 1]) && Orderly(states[j - 1], steps[j - 1]);
      if states[j - 1].p.peerClosed { ProducerClosureIsFinal(states[j - 1], steps[j - 1]); }
      if Exhausted(states[j - 1]) { ConsumerClosureIsFinal(states[j - 1], steps[j - 1]); }
    }
  }

  /** No consumer arrives from step `i` to before step `j`. */
  predicate NoConsumerArrives(steps: seq<Step>, i: nat, j: nat)
    requires j <= |steps|
  {
    forall k :: i <= k < j ==> !(steps[k].ConsumerTransitStep? && steps[k].t.Deserialize?)
  }

  lemma TransitLeavesRegionGone(s: Pipe, t: Transit)
    requires ConsumerTransitEnabled(s, t) && !s.c.hasRegion && !t.Deserialize?
    ensures !TransitC(s, t).c.hasRegion
  {
    hide UpdateC, DrainWrites, ConsumerPort;
    if t.CancelTransit? {
      UpdateLeavesRegionGone(s.(c := s.c.(inTransit := false), carriedConsumer := None), t.k, t.remote);
    }
  }

  lemma UpdateLeavesRegionGone(s: Pipe, k: nat, remote: bool)
    requires k <= |s.toConsumer| && !s.c.hasRegion
    ensures !UpdateC(s, k, remote).c.hasRegion
  {
    hide DrainWrites, ConsumerPort;
  }

  lemma RegionStaysGone(s: Pipe, step: Step)
    requires Enabled(s, step) && !s.c.hasRegion && !(step.ConsumerTransitStep? && step.t.Deserialize?)
    ensures !Next(s, step).c.hasRegion
  {
    hide WriteData, EndWriteData, BeginWriteData, UpdateP, TransitP, UpdateC, TransitC;
    match step
    case ProducerTransitStep(t) => ProducerTransitLeavesConsumer(s, t);
    case UpdateProducerStep(k, remote) => UpdatesLeavePeers(s, k, remote);
    case ConsumerTransitStep(t) => TransitLeavesRegionGone(s, t);
    case UpdateConsumerStep(k, remote) => UpdateLeavesRegionGone(s, k, remote);
    case _ =>
  }

  lemma {:induction false} RegionStaysGoneInRun(states: seq<Pipe>, steps: seq<Step>, i: nat, j: nat)
    requires Run(states, steps) && i <= j < |states| && !states[i].c.hasRegion && NoConsumerArrives(steps, i, j)
    ensures !states[j].c.hasRegion
    decreases j
  {
    hide Next, Enabled;
    if i < j {
      RegionStaysGoneInRun(states, steps, i, j - 1);
      assert Enabled(states[j - 1], steps[j - 1]);
      RegionStaysGone(states[j - 1], steps[j - 1]);
    }
  }

  /**
   Once WRITABLE stops being satisfiable it stays so for the rest of the run, through any transfer.  So does
   READABLE if the end still has its region; if not, because the end was serialized or closed, it stays so
   until a consumer arrives at the end of a transfer.
   */
  lemma UnsatisfiableForever(states: seq<Pipe>, steps: seq<Step>, i: nat, j: nat)
    requires RunFromCreation(states, steps) && i <= j < |states|
    ensures Writable !in ProducerSignals(states[i].p).satisfiable ==>
              Writable !in ProducerSignals(states[j].p).satisfiable
    ensures states[i].c.hasRegion && Readable !in ConsumerSignals(states[i].c).satisfiable ==>
              Readable !in ConsumerSignals(states[j].c).satisfiable
    ensures Readable !in ConsumerSignals(states[i].c).satisfiable && NoConsumerArrives(steps, i, j) ==>
              Readable !in ConsumerSignals(states[j].c).satisfiable
  {
    hide Next, Enabled, Init;
    ClosureIsFinalInRun(states, steps, i, j);
    if !states[i].c.hasRegion && NoConsumerArrives(steps, i, j) { RegionStaysGoneInRun(states, steps, i, j); }
  }
}
