/**
 Moving an end of a data pipe to another process: nothing of a completed transfer can be seen, a cancelled
 one leaves the end as it was, and an end whose region was given away before the cancel is of no more use.
 */
module DataPipeTransfers {
  import opened Basics
  import opened RingMath
  import opened DataPipe
  import opened DataPipeProtocol
  import opened DataPipeProof
  import opened DataPipeTheorems

  /** The range checks of `Deserialize` accept whatever a reachable end serialized. */
  lemma DeserializeNeverRejects(states: seq<Pipe>, steps: seq<Step>, i: nat)
    requires RunFromCreation(states, steps) && i < |states|
    ensures states[i].carriedProducer.Some? ==> DeserializeProducer(states[i].carriedProducer.value).Some?
    ensures states[i].carriedConsumer.Some? ==> DeserializeConsumer(states[i].carriedConsumer.value).Some?
  {
    hide Next, Enabled, GrainInv;
    RunKeepsInv(states, steps, i);
  }

  predicate ProducerMovable(s: Pipe) {
    s.p.hasRegion && !s.p.isClosed && !s.p.inTransit && !s.p.inTwoPhaseWrite
  }

  predicate ConsumerMovable(s: Pipe) {
    s.c.hasRegion && !s.c.isClosed && !s.c.inTransit && !s.c.inTwoPhaseRead
  }

  /** The four stages of a transfer, applied one after the other. */
  function MoveProducer(s: Pipe, k: nat, remote: bool): Pipe
    requires Core(s) && ProducerMovable(s) && k <= |s.toProducer|
  {
    var s1 := TransitP(s, BeginTransit);
    var s2 := TransitP(s1, EndSerialize);
    var s3 := TransitP(s2, CompleteTransit);
    TransitP(s3, Deserialize(k, remote))
  }

  function MoveConsumer(s: Pipe, k: nat, remote: bool): Pipe
    requires Core(s) && ConsumerMovable(s) && k <= |s.toConsumer|
  {
    var s1 := TransitC(s, BeginTransit);
    var s2 := TransitC(s1, EndSerialize);
    var s3 := TransitC(s2, CompleteTransit);
    TransitC(s3, Deserialize(k, remote))
  }

  /** A transferred producer is the producer it was, having looked at its port once and lost what it owed. */
  lemma MoveProducerInvisible(s: Pipe, k: nat, remote: bool)
    requires Core(s) && ProducerMovable(s) && k <= |s.toProducer|
    ensures var stayed := s.(unsentWrites := [], lostWrites := s.lostWrites + Sum(s.unsentWrites));
      MoveProducer(s, k, remote) == UpdateP(stayed, k, remote)
  {
    hide StreamsInRing, CountInv, ConsumerInv, DrainReads, Sum;
    InvInRange(s);
    var stayed := s.(unsentWrites := [], lostWrites := s.lostWrites + Sum(s.unsentWrites));
    var arrived := stayed.(p := s.p.(peerRemote := false));
    assert MoveProducer(s, k, remote) == UpdateP(arrived, k, remote);
    assert ProducerPort(arrived, k, remote) == ProducerPort(stayed, k, remote);
  }

  /** The state the consumer leaves behind, with its own in a message. */
  lemma ConsumerDeparts(s: Pipe)
    requires ConsumerMovable(s) && s.endingReads == 0
    ensures var s3 := TransitC(TransitC(TransitC(s, BeginTransit), EndSerialize), CompleteTransit);
      && s3.carriedConsumer == Some(SerializedState(s.o, s.c.readOffset, s.c.bytesAvailable, s.c.peerClosed))
      && s3 == s.(c := s3.c, carriedConsumer := s3.carriedConsumer, unsentReads := [],
                  lostReads := s.lostReads + Sum(s.unsentReads))
      && s3.c.transferred
  {
    hide Sum;
  }

  /** A transferred consumer differs from one that stayed also in reporting its unread bytes as new. */
  lemma MoveConsumerInvisible(s: Pipe, k: nat, remote: bool)
    requires Core(s) && ConsumerMovable(s) && k <= |s.toConsumer|
    ensures var stayed := s.(c := s.c.(newDataAvailable := s.c.bytesAvailable > 0),
                             unsentReads := [], lostReads := s.lostReads + Sum(s.unsentReads));
      MoveConsumer(s, k, remote) == UpdateC(stayed, k, remote)
  {
    hide StreamsInRing, CountInv, ProducerInv, UpdateConsumer, DrainWrites, Sum;
    InvInRange(s);
    ConsumerDeparts(s);
    var stayed := s.(c := s.c.(newDataAvailable := s.c.bytesAvailable > 0),
                     unsentReads := [], lostReads := s.lostReads + Sum(s.unsentReads));
    var arrived := stayed.(c := stayed.c.(peerRemote := false));
    assert MoveConsumer(s, k, remote) == UpdateC(arrived, k, remote);
    assert ConsumerPort(arrived, k, remote) == ConsumerPort(stayed, k, remote);
    UpdateForgetsRemote(s.o, stayed.c, ConsumerPort(stayed, k, remote));
  }

  lemma UpdateForgetsRemote(o: Options, c: Consumer, port: PortView)
    ensures UpdateConsumer(o, c.(peerRemote := false), port) == UpdateConsumer(o, c, port)
  {
  }

  // ---- cancelled transfers ----

  predicate EndsProducerTransit(step: Step) {
    step.ProducerTransitStep? && (step.t.CancelTransit? || step.t.CompleteTransit?)
  }

  predicate EndsConsumerTransit(step: Step) {
    step.ConsumerTransitStep? && (step.t.CancelTransit? || step.t.CompleteTransit?)
  }

  lemma ProducerFrozen(s: Pipe, step: Step)
    requires Core(s) && Enabled(s, step) && s.p.inTransit && !EndsProducerTransit(step)
    ensures var p1 := Next(s, step).p;
      p1 == s.p.(peerClosed := p1.peerClosed, peerRemote := p1.peerRemote,
                 hasRegion := s.p.hasRegion && step != ProducerTransitStep(EndSerialize))
  {
    hide StreamsInRing, CountInv, ConsumerInv, ReadData, EndReadData, BeginReadData, UpdateConsumer, ConsumerPort,
         DrainReads, TransitC;
    if step.ConsumerTransitStep? { ConsumerTransitLeavesProducer(s, step.t); }
  }

  lemma ConsumerFrozen(s: Pipe, step: Step)
    requires Core(s) && Enabled(s, step) && s.c.inTransit && !EndsConsumerTransit(step)
    ensures var c1 := Next(s, step).c;
      c1 == s.c.(peerClosed := c1.peerClosed, peerRemote := c1.peerRemote,
                 hasRegion := s.c.hasRegion && step != ConsumerTransitStep(EndSerialize))
  {
    hide StreamsInRing, CountInv, ProducerInv, WriteData, EndWriteData, BeginWriteData, UpdateProducer, ProducerPort,
         DrainWrites, TransitP;
    if step.ProducerTransitStep? { ProducerTransitLeavesConsumer(s, step.t); }
  }

  /** No step from `i` to before `j` serializes the producer. */
  predicate ProducerKept(steps: seq<Step>, i: nat, j: nat)
    requires j <= |steps|
  {
    forall k :: i <= k < j ==> steps[k] != ProducerTransitStep(EndSerialize)
  }

  predicate ConsumerKept(steps: seq<Step>, i: nat, j: nat)
    requires j <= |steps|
  {
    forall k :: i <= k < j ==> steps[k] != ConsumerTransitStep(EndSerialize)
  }

  lemma {:induction false} ProducerFrozenInRun(states: seq<Pipe>, steps: seq<Step>, i: nat, j: nat)
    requires RunFromCreation(states, steps) && i <= j < |states| && states[i].p.inTransit
    requires forall k | i <= k < j :: !EndsProducerTransit(steps[k])
    ensures var (p, q) := (states[i].p, states[j].p);
      q == p.(peerClosed := q.peerClosed, peerRemote := q.peerRemote,
              hasRegion := p.hasRegion && ProducerKept(steps, i, j))
    decreases j
  {
    hide Next, Enabled, Core, GrainInv;
    if i < j {
      ProducerFrozenInRun(states, steps, i, j - 1);
      RunKeepsInv(states, steps, j - 1);
      assert Enabled(states[j - 1], steps[j - 1]);
      ProducerFrozen(states[j - 1], steps[j - 1]);
    }
  }

  lemma {:induction false} ConsumerFrozenInRun(states: seq<Pipe>, steps: seq<Step>, i: nat, j: nat)
    requires RunFromCreation(states, steps) && i <= j < |states| && states[i].c.inTransit
    requires forall k | i <= k < j :: !EndsConsumerTransit(steps[k])
    ensures var (c, d) := (states[i].c, states[j].c);
      d == c.(peerClosed := d.peerClosed, peerRemote := d.peerRemote,
              hasRegion := c.hasRegion && ConsumerKept(steps, i, j))
    decreases j
  {
    hide Next, Enabled, Core, GrainInv;
    if i < j {
      ConsumerFrozenInRun(states, steps, i, j - 1);
      RunKeepsInv(states, steps, j - 1);
      assert Enabled(states[j - 1], steps[j - 1]);
      ConsumerFrozen(states[j - 1], steps[j - 1]);
    }
  }

  /**
   A producer that began transit at step `i` and had it cancelled at step `k`, whatever happened in
   between, is as it was but for what it learned of its peer; it has its region back if and only if it
   was not serialized in between.
   */
  lemma CancelRestoresIff(states: seq<Pipe>, steps: seq<Step>, i: nat, k: nat)
    requires RunFromCreation(states, steps) && i < k < |steps|
    requires steps[i] == ProducerTransitStep(BeginTransit) && BeginProducerTransit(states[i].p).0
    requires steps[k].ProducerTransitStep? && steps[k].t.CancelTransit?
    requires forall j | i < j < k :: !EndsProducerTransit(steps[j])
    ensures var (before, after) := (states[i].p, states[k + 1].p);
      && after == before.(peerClosed := after.peerClosed, peerRemote := after.peerRemote, hasRegion := after.hasRegion)
      && (after.hasRegion <==> before.hasRegion && ProducerKept(steps, i + 1, k))
  {
    hide Enabled, Core, GrainInv;
    assert states[i + 1] == Next(states[i], steps[i]) && states[k + 1] == Next(states[k], steps[k]);
    ProducerFrozenInRun(states, steps, i + 1, k);
  }

  /** The same for the consumer, whose cancel ends with a look at the port. */
  lemma CancelConsumerRestoresIff(states: seq<Pipe>, steps: seq<Step>, i: nat, k: nat)
    requires RunFromCreation(states, steps) && i < k < |steps|
    requires steps[i] == ConsumerTransitStep(BeginTransit) && BeginConsumerTransit(states[i].c).0
    requires steps[k].ConsumerTransitStep? && steps[k].t.CancelTransit?
    requires forall j | i < j < k :: !EndsConsumerTransit(steps[j])
    ensures steps[k].t.k <= |states[k].toConsumer|
    ensures var (before, after) := (states[i].c, states[k + 1].c);
      && after == before.(peerClosed := after.peerClosed, peerRemote := after.peerRemote, hasRegion := after.hasRegion,
                          bytesAvailable := before.bytesAvailable + Sum(states[k].toConsumer[..steps[k].t.k]),
                          newDataAvailable := after.newDataAvailable)
      && (after.hasRegion <==> before.hasRegion && ConsumerKept(steps, i + 1, k))
  {
    assert Enabled(states[k], steps[k]);
    assert states[i + 1] == Next(states[i], steps[i]) && states[k + 1] == Next(states[k], steps[k]);
    assert states[i + 1].c == BeginConsumerTransit(states[i].c).1;
    RunKeepsInv(states, steps, k);
    hide Enabled, GrainInv, StreamsInRing, ProducerInv, UpdateConsumer, ConsumerPort, Sum;
    ConsumerFrozenInRun(states, steps, i + 1, k);
    var s := states[k];
    ConsumerAfterUpdate(s.(c := s.c.(inTransit := false), carriedConsumer := None), steps[k].t.k, steps[k].t.remote);
    UnreadBounded(s);
  }

  // ---- ends without a region ----

  /** A producer that gave its region away and is not on its way anywhere. */
  predicate ProducerStripped(s: Pipe) { !s.p.hasRegion && !s.p.transferred && s.carriedProducer.None? }

  predicate ConsumerStripped(s: Pipe) { !s.c.hasRegion && !s.c.transferred && s.carriedConsumer.None? }

  lemma ProducerTransitStaysStripped(s: Pipe, t: Transit)
    requires ProducerTransitEnabled(s, t) && ProducerStripped(s)
    ensures ProducerStripped(TransitP(s, t))
  {
  }

  lemma ConsumerTransitStaysStripped(s: Pipe, t: Transit)
    requires ConsumerTransitEnabled(s, t) && ConsumerStripped(s)
    ensures ConsumerStripped(TransitC(s, t))
  {
    hide DrainWrites, ConsumerPort, DeserializeConsumer;
    match t
    case CancelTransit(k, remote) =>
    case _ =>
  }

  lemma ProducerStaysStripped(s: Pipe, step: Step)
    requires Enabled(s, step) && ProducerStripped(s)
    ensures ProducerStripped(Next(s, step))
  {
    hide ReadData, EndReadData, BeginReadData, UpdateConsumer, ConsumerPort, DrainReads, ProducerPort, TransitC,
         TransitP;
    match step
    case ProducerTransitStep(t) => ProducerTransitStaysStripped(s, t);
    case ConsumerTransitStep(t) => ConsumerTransitLeavesProducer(s, t);
    case _ =>
  }

  lemma ReadStaysStripped(s: Pipe, step: Step)
    requires Enabled(s, step) && ConsumerStripped(s)
    requires step.ReadStep? || step.BeginReadStep? || step.EndReadStep?
    ensures ConsumerStripped(Next(s, step))
  {
    hide UpdateC, TransitC, TransitP, UpdateP, Write, EndWrite, BeginWrite, Loaded;
  }

  lemma UpdateStaysStripped(s: Pipe, k: nat, remote: bool)
    requires k <= |s.toConsumer| && ConsumerStripped(s)
    ensures ConsumerStripped(UpdateC(s, k, remote))
  {
    hide UpdateConsumer, ConsumerPort;
    UpdateLeavesPlace(s.o, s.c, ConsumerPort(s, k, remote));
  }

  lemma UpdateLeavesPlace(o: Options, c: Consumer, port: PortView)
    ensures var d := UpdateConsumer(o, c, port); d.hasRegion == c.hasRegion && d.transferred == c.transferred
  {
    hide DrainWrites;
  }

  lemma ConsumerStaysStripped(s: Pipe, step: Step)
    requires Enabled(s, step) && ConsumerStripped(s)
    ensures ConsumerStripped(Next(s, step))
  {
    hide WriteData, EndWriteData, BeginWriteData, UpdateProducer, ProducerPort, Read, BeginRead, EndRead, UpdateC,
         TransitP, TransitC;
    match step
    case ProducerTransitStep(t) => ProducerTransitLeavesConsumer(s, t);
    case ConsumerTransitStep(t) => ConsumerTransitStaysStripped(s, t);
    case ReadStep(_, _) => ReadStaysStripped(s, step);
    case BeginReadStep => ReadStaysStripped(s, step);
    case EndReadStep(_) => ReadStaysStripped(s, step);
    case UpdateConsumerStep(k, remote) => UpdateStaysStripped(s, k, remote);
    case _ =>
  }

  lemma {:induction false} StrippedForever(states: seq<Pipe>, steps: seq<Step>, i: nat, j: nat)
    requires Run(states, steps) && i <= j < |states|
    ensures ProducerStripped(states[i]) ==> ProducerStripped(states[j])
    ensures ConsumerStripped(states[i]) ==> ConsumerStripped(states[j])
    decreases j
  {
    hide Next, Enabled;
    if i < j {
      StrippedForever(states, steps, i, j - 1);
      assert Enabled(states[j - 1], steps[j - 1]);
      if ProducerStripped(states[j - 1]) { ProducerStaysStripped(states[j - 1], steps[j - 1]); }
      if ConsumerStripped(states[j - 1]) { ConsumerStaysStripped(states[j - 1], steps[j - 1]); }
    }
  }

  /** A producer cancelled after it was serialized refuses every write from then on, in every run. */
  lemma StrippedProducerRefuses(
    states: seq<Pipe>, steps: seq<Step>, i: nat, k: nat, j: nat, data: seq<byte>, allOrNone: bool)
    requires RunFromCreation(states, steps) && i < k < |steps| && k < j < |states|
    requires steps[i] == ProducerTransitStep(BeginTransit) && BeginProducerTransit(states[i].p).0
    requires steps[k].ProducerTransitStep? && steps[k].t.CancelTransit? && !ProducerKept(steps, i + 1, k)
    requires forall m | i < m < k :: !EndsProducerTransit(steps[m])
    ensures var s := states[j];
      && InRange(s)
      && WriteData(s.o, s.p, s.ring, data, allOrNone).result == InvalidArgument
      && BeginWriteData(s.o, s.p).0 == InvalidArgument
  {
    hide Next, Enabled, GrainInv, StreamsInRing, ProducerInv, ConsumerInv, Orderly, Init;
    CancelRestoresIff(states, steps, i, k);
    CancelStrips(states, steps, k);
    StrippedForever(states, steps, k + 1, j);
    RunKeepsInv(states, steps, j);
    InvInRange(states[j]);
  }

  /** A consumer cancelled after it was serialized refuses every read from then on, in every run. */
  lemma StrippedConsumerRefuses(states: seq<Pipe>, steps: seq<Step>, i: nat, k: nat, j: nat, flags: ReadFlags, n: nat)
    requires RunFromCreation(states, steps) && i < k < |steps| && k < j < |states|
    requires steps[i] == ConsumerTransitStep(BeginTransit) && BeginConsumerTransit(states[i].c).0
    requires steps[k].ConsumerTransitStep? && steps[k].t.CancelTransit? && !ConsumerKept(steps, i + 1, k)
    requires forall m | i < m < k :: !EndsConsumerTransit(steps[m])
    ensures var s := states[j];
      && InRange(s)
      && ReadData(s.o, s.c, s.ring, flags, n).result == InvalidArgument
      && BeginReadData(s.o, s.c).0 == InvalidArgument
  {
    hide Next, Enabled, GrainInv, StreamsInRing, ProducerInv, ConsumerInv, Orderly, Init;
    CancelConsumerRestoresIff(states, steps, i, k);
    CancelStrips(states, steps, k);
    StrippedForever(states, steps, k + 1, j);
    RunKeepsInv(states, steps, j);
    InvInRange(states[j]);
  }

  /** After a cancel nothing is carried and the end is not transferred. */
  lemma CancelStrips(states: seq<Pipe>, steps: seq<Step>, k: nat)
    requires RunFromCreation(states, steps) && k < |steps|
    ensures steps[k].ProducerTransitStep? && steps[k].t.CancelTransit? && !states[k + 1].p.hasRegion ==>
      ProducerStripped(states[k + 1])
    ensures steps[k].ConsumerTransitStep? && steps[k].t.CancelTransit? && !states[k + 1].c.hasRegion ==>
      ConsumerStripped(states[k + 1])
  {
    hide StreamsInRing, CountInv, GrainInv, DrainWrites, ConsumerPort;
    RunKeepsInv(states, steps, k);
    assert Enabled(states[k], steps[k]) && states[k + 1] == Next(states[k], steps[k]);
  }
}
