/** What the signals of a data pipe's ends say about their calls and about the run so far. */
module DataPipeSignals {
  import opened Basics
  import opened RingMath
  import opened Division
  import opened DataPipe
  import opened DataPipeProtocol
  import opened DataPipeProof
  import opened DataPipeTheorems
  import opened DataPipeCalls

  // ---- signals ----

  /** READABLE, at an end that is not in transit, is reported exactly when any read of whole elements succeeds. */
  lemma ReadableMeansRead(o: Options, c: Consumer, ring: seq<byte>, flags: ReadFlags, n: nat)
    requires ConsumerInRange(o, c) && |ring| == o.capacity
    ensures Readable in ConsumerSignals(c).satisfied && !c.inTransit <==> BeginReadData(o, c).0.Ok?
    ensures n > 0 && Sensible(o, flags, n) && !flags.query && !flags.allOrNone ==>
      (Readable in ConsumerSignals(c).satisfied && !c.inTransit <==> ReadData(o, c, ring, flags, n).result.Ok?)
  {
    hide Loaded, CommitRead;
  }

  /** WRITABLE, at an end that is not in transit, is reported exactly when any write of whole elements succeeds. */
  lemma WritableMeansWrite(o: Options, p: Producer, ring: seq<byte>, data: seq<byte>)
    requires ProducerInRange(o, p) && |ring| == o.capacity
    ensures Writable in ProducerSignals(p).satisfied && !p.inTransit <==> BeginWriteData(o, p).0.Ok?
    ensures data != [] && Whole(|data|, o.elementBytes) ==>
      (Writable in ProducerSignals(p).satisfied && !p.inTransit <==> WriteData(o, p, ring, data, false).result.Ok?)
  {
    hide Stored, CommitWrite;
  }

  /** What can still come is reported as such: READABLE unless the end is exhausted, WRITABLE until the peer closes. */
  lemma SatisfiableSignals(s: Pipe)
    ensures Readable in ConsumerSignals(s.c).satisfiable <==> s.c.hasRegion && !Exhausted(s)
    ensures NewDataReadable in ConsumerSignals(s.c).satisfiable <==>
      s.c.hasRegion && (s.c.newDataAvailable || !s.c.peerClosed)
    ensures Writable in ProducerSignals(s.p).satisfiable <==> !s.p.peerClosed
    ensures PeerClosed in ConsumerSignals(s.c).satisfied <==> s.c.peerClosed
    ensures PeerClosed in ProducerSignals(s.p).satisfied <==> s.p.peerClosed
    ensures PeerClosed in ConsumerSignals(s.c).satisfiable && PeerClosed in ProducerSignals(s.p).satisfiable
    ensures PeerRemote in ConsumerSignals(s.c).satisfied <==> s.c.peerRemote && !s.c.peerClosed
    ensures PeerRemote in ProducerSignals(s.p).satisfied <==> s.p.peerRemote && !s.p.peerClosed
    ensures PeerRemote in ConsumerSignals(s.c).satisfiable <==> !s.c.peerClosed
    ensures PeerRemote in ProducerSignals(s.p).satisfiable <==> !s.p.peerClosed
    ensures Writable !in ConsumerSignals(s.c).satisfiable
    ensures Readable !in ProducerSignals(s.p).satisfiable && NewDataReadable !in ProducerSignals(s.p).satisfiable
  {
  }

  // ---- new data ----

  /** A call that looks at the data, whatever it answers. */
  predicate ReadCall(s: Pipe, step: Step) { (step.ReadStep? || step.BeginReadStep?) && ConsumerIdle(s.c) }

  /** The step makes bytes available: to the end that was there, or to one that arrives at the end of a transfer. */
  predicate Brings(s: Pipe, step: Step)
    requires Enabled(s, step)
  {
    var arrives := step.ConsumerTransitStep? && step.t.Deserialize?;
    Next(s, step).c.bytesAvailable > if arrives then 0 else s.c.bytesAvailable
  }

  /** New data is there, behind what a two-phase read exposes. */
  predicate NewsInv(s: Pipe) {
    s.c.newDataAvailable ==> s.c.bytesAvailable > if ReadExposed(s) then s.c.twoPhaseMaxBytesRead else 0
  }

  /** What a step does to the flag. */
  predicate NewsFollow(s: Pipe, step: Step)
    requires Enabled(s, step)
  {
    var t := Next(s, step);
    NewsInv(t) && (t.c.newDataAvailable <==> Brings(s, step) || (s.c.newDataAvailable && !ReadCall(s, step)))
  }

  lemma UpdateBringsNews(s: Pipe, k: nat, remote: bool)
    requires CountInv(s) && Unread(s) <= s.o.capacity && k <= |s.toConsumer|
    ensures var t := UpdateC(s, k, remote);
      && t.c.newDataAvailable == (s.c.newDataAvailable || t.c.bytesAvailable > s.c.bytesAvailable)
      && t.c.bytesAvailable >= s.c.bytesAvailable && t.c.twoPhaseMaxBytesRead == s.c.twoPhaseMaxBytesRead
      && t.c.inTwoPhaseRead == s.c.inTwoPhaseRead && t.endingReads == s.endingReads
  {
    hide UpdateConsumer, ConsumerPort, Sum;
    ConsumerAfterUpdate(s, k, remote);
  }

  lemma TransitBringsNews(s: Pipe, t: Transit)
    requires Inv(s) && NewsInv(s) && Enabled(s, ConsumerTransitStep(t))
    ensures NewsFollow(s, ConsumerTransitStep(t))
  {
    hide StreamsInRing, ProducerInv, GrainInv, UpdateC, Sum;
    UnreadBounded(s);
    match t
    case CancelTransit(k, remote) =>
      UpdateBringsNews(s.(c := s.c.(inTransit := false), carriedConsumer := None), k, remote);
    case Deserialize(k, remote) =>
      InvInRange(s);
      UpdateBringsNews(s.(c := DeserializeConsumer(s.carriedConsumer.value).value, carriedConsumer := None), k, remote);
    case _ =>
  }

  lemma BeginReadFollowsNews(s: Pipe)
    requires NewsInv(s) && Enabled(s, BeginReadStep)
    ensures NewsFollow(s, BeginReadStep)
  {
  }

  lemma ReadFollowsNews(s: Pipe, flags: ReadFlags, n: nat)
    requires NewsInv(s) && Enabled(s, ReadStep(flags, n))
    ensures NewsFollow(s, ReadStep(flags, n))
  {
    hide ReadData, Loaded, NextOffset;
    ReadTakes(s, flags, n);
    ReadResults(s, flags, n);
  }

  lemma EndReadFollowsNews(s: Pipe, step: Step)
    requires Inv(s) && NewsInv(s) && Enabled(s, step) && Orderly(s, step)
    requires step.EndReadStep? || step.EndReadReturnStep?
    ensures NewsFollow(s, step)
  {
    hide StreamsInRing, ProducerInv, GrainInv, CountInv, Loaded, NextOffset;
    if step.EndReadStep? && EndReadData(s.o, s.c, step.n).0.Ok? { EndReadCommits(s.o, s.c, step.n); }
  }

  lemma StepFollowsNews(s: Pipe, step: Step)
    requires Inv(s) && NewsInv(s) && Enabled(s, step) && Orderly(s, step)
    ensures NewsFollow(s, step)
  {
    hide Inv, WriteData, EndWriteData, BeginWriteData, Read, BeginRead, EndRead, ReturnFromEndRead, UpdateP, TransitP,
         UpdateC, TransitC;
    match step
    case ReadStep(flags, n) => ReadFollowsNews(s, flags, n);
    case BeginReadStep => BeginReadFollowsNews(s);
    case EndReadStep(_) => EndReadFollowsNews(s, step);
    case EndReadReturnStep => EndReadFollowsNews(s, step);
    case ConsumerTransitStep(t) => TransitBringsNews(s, t);
    case UpdateConsumerStep(k, remote) => UpdateFollowsNews(s, k, remote);
    case ProducerTransitStep(t) => ProducerTransitLeavesReading(s, t);
    case UpdateProducerStep(k, remote) => ProducerUpdateLeavesReading(s, k, remote);
    case _ =>
  }

  lemma UpdateFollowsNews(s: Pipe, k: nat, remote: bool)
    requires Inv(s) && NewsInv(s) && Enabled(s, UpdateConsumerStep(k, remote))
    ensures NewsFollow(s, UpdateConsumerStep(k, remote))
  {
    hide StreamsInRing, UpdateC;
    UnreadBounded(s);
    UpdateBringsNews(s, k, remote);
  }

  lemma ProducerTransitLeavesReading(s: Pipe, t: Transit)
    requires ProducerTransitEnabled(s, t)
    ensures TransitP(s, t).c == s.c && TransitP(s, t).endingReads == s.endingReads
  {
    hide UpdateProducer, ProducerPort;
  }

  lemma ProducerUpdateLeavesReading(s: Pipe, k: nat, remote: bool)
    requires k <= |s.toProducer|
    ensures UpdateP(s, k, remote).c == s.c && UpdateP(s, k, remote).endingReads == s.endingReads
  {
    hide UpdateProducer, ProducerPort;
  }

  /** Bytes have become available since the last call that looked. */
  predicate HasNews(states: seq<Pipe>, steps: seq<Step>, i: nat)
    requires Run(states, steps) && i <= |steps|
  {
    exists j: nat :: j < i && BringsLast(states, steps, i, j)
  }

  predicate BringsLast(states: seq<Pipe>, steps: seq<Step>, i: nat, j: nat)
    requires Run(states, steps) && j < i <= |steps|
  {
    && Enabled(states[j], steps[j]) && Brings(states[j], steps[j])
    && forall k: nat :: j < k < i ==> !ReadCall(states[k], steps[k])
  }

  lemma HasNewsNext(states: seq<Pipe>, steps: seq<Step>, i: nat)
    requires Run(states, steps) && i < |steps|
    ensures Enabled(states[i], steps[i])
    ensures HasNews(states, steps, i + 1) <==>
      Brings(states[i], steps[i]) || (HasNews(states, steps, i) && !ReadCall(states[i], steps[i]))
  {
    hide Next, Enabled, Brings, ReadCall;
    assert Enabled(states[i], steps[i]);
    if Brings(states[i], steps[i]) {
      assert BringsLast(states, steps, i + 1, i);
    }
    if HasNews(states, steps, i) && !ReadCall(states[i], steps[i]) {
      var j: nat :| j < i && BringsLast(states, steps, i, j);
      assert BringsLast(states, steps, i + 1, j);
    }
    if HasNews(states, steps, i + 1) {
      var j: nat :| j < i + 1 && BringsLast(states, steps, i + 1, j);
      if j < i { assert BringsLast(states, steps, i, j); }
    }
  }

  lemma {:induction false} NewsInRun(states: seq<Pipe>, steps: seq<Step>, i: nat)
    requires RunFromCreation(states, steps) && i < |states|
    ensures NewsInv(states[i])
    ensures states[i].c.newDataAvailable <==> HasNews(states, steps, i)
  {
    hide Next, Enabled, Inv, Brings, ReadCall, BringsLast;
    if i > 0 {
      NewsInRun(states, steps, i - 1);
      RunKeepsInv(states, steps, i - 1);
      assert Enabled(states[i - 1], steps[i - 1]) && Orderly(states[i - 1], steps[i - 1]);
      StepFollowsNews(states[i - 1], steps[i - 1]);
      HasNewsNext(states, steps, i - 1);
    }
  }

  /**
   In every run NEW_DATA_READABLE is reported, by an end with its region that is not in a two-phase read, exactly
   when bytes have become available since the last call that looked at the data.
   */
  lemma NewDataMeansArrival(states: seq<Pipe>, steps: seq<Step>, i: nat)
    requires RunFromCreation(states, steps) && i < |states|
    ensures NewDataReadable in ConsumerSignals(states[i].c).satisfied <==>
      states[i].c.hasRegion && !states[i].c.inTwoPhaseRead && HasNews(states, steps, i)
  {
    hide Next, Enabled, HasNews, Init;
    NewsInRun(states, steps, i);
  }
}
