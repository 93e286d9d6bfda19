/** Runs that reach the failing side of what the data pipe keeps only under a condition. */
module DataPipeFailures {
  import opened Basics
  import opened RingMath
  import opened DataPipe
  import opened DataPipeProtocol
  import opened DataPipeLimits
  import opened DataPipeOverlap

  // ---- a count lost in a transfer ----

  /** A pipe into which one element was written, with its count still owed by a producer in some stage of a transfer. */
  function Leaving(o: Options, inTransit: bool, carried: bool): Pipe
    requires o.Valid()
  {
    var (c, e) := (o.capacity, o.elementBytes);
    var s := Quiet(o, View(Zeros(c), NextOffset(0, e, c), c - e, 0, 0, false, Zeros(e), []));
    s.(p := s.p.(inTransit := inTransit, hasRegion := !carried), unsentWrites := [e],
       carriedProducer := if carried then Some(SerializedState(o, NextOffset(0, e, c), c - e, false)) else None)
  }

  lemma WriteOwes(o: Options)
    requires o.Valid()
    ensures var step := WriteStep(Zeros(o.elementBytes), false);
      Enabled(Start(o), step) && Next(Start(o), step) == Leaving(o, false, false)
  {
    var (c, e) := (o.capacity, o.elementBytes);
    ElementIsWhole(e);
    ZerosJoin(0, c);
    ZerosJoin(0, e);
    ZerosCut(e, e);
    ZeroRing(c, 0, e);
    WriteStepOf(o, EmptyAt(o, 0, 0), Zeros(e));
  }

  lemma BeginLeaving(o: Options)
    requires o.Valid()
    ensures var step := ProducerTransitStep(BeginTransit);
      Enabled(Leaving(o, false, false), step) && Next(Leaving(o, false, false), step) == Leaving(o, true, false)
  {
    hide NextOffset;
    ZerosJoin(0, o.capacity);
  }

  lemma SerializeLeaving(o: Options)
    requires o.Valid()
    ensures var step := ProducerTransitStep(EndSerialize);
      Enabled(Leaving(o, true, false), step) && Next(Leaving(o, true, false), step) == Leaving(o, true, true)
  {
    hide NextOffset;
    ZerosJoin(0, o.capacity);
  }

  /** The counts of a pipe that are not lost. */
  function Counted(s: Pipe): nat {
    s.p.availableCapacity + Sum(s.unsentWrites) + Sum(s.toConsumer) + s.c.bytesAvailable
      + Sum(s.unsentReads) + Sum(s.toProducer)
  }

  function Left(o: Options): Pipe
    requires o.Valid()
  {
    TransitP(Leaving(o, true, true), CompleteTransit)
  }

  lemma CompleteLeaving(o: Options)
    requires o.Valid()
    ensures Enabled(Leaving(o, true, true), ProducerTransitStep(CompleteTransit))
    ensures Enabled(Left(o), ProducerTransitStep(Deserialize(0, false)))
    ensures var t := Next(Left(o), ProducerTransitStep(Deserialize(0, false)));
      BothOpen(t) && t.o == o && !t.p.isClosed && !t.c.isClosed && Counted(t) == o.capacity - o.elementBytes
  {
    hide NextOffset;
    ZerosJoin(0, o.capacity);
    assert Sum([]) == 0;
  }

  /**
   Every pipe has a run, of callers who never let End calls overlap, after which both ends are open and at
   work but an element of capacity is counted nowhere: its producer was transferred before its count was sent.
   */
  lemma TransferCanLoseCount(o: Options, d: Discipline)
    requires o.Valid()
    ensures exists t ::
      Reach(Start(o), t, d) && BothOpen(t) && !t.p.isClosed && !t.c.isClosed && Counted(t) < o.capacity
  {
    hide Reach, Enabled, Next, Leaving, Counted, TransitP;
    WriteOwes(o);
    ReachSelf(Start(o), d);
    ReachStep(Start(o), Start(o), WriteStep(Zeros(o.elementBytes), false), d);
    BeginLeaving(o);
    ReachStep(Start(o), Leaving(o, false, false), ProducerTransitStep(BeginTransit), d);
    SerializeLeaving(o);
    ReachStep(Start(o), Leaving(o, true, false), ProducerTransitStep(EndSerialize), d);
    CompleteLeaving(o);
    ReachStep(Start(o), Leaving(o, true, true), ProducerTransitStep(CompleteTransit), d);
    NextIsLeft(o);
    ReachStep(Start(o), Left(o), ProducerTransitStep(Deserialize(0, false)), d);
    var t := Next(Left(o), ProducerTransitStep(Deserialize(0, false)));
    assert Reach(Start(o), t, d);
  }

  lemma NextIsLeft(o: Options)
    requires o.Valid() && Enabled(Leaving(o, true, true), ProducerTransitStep(CompleteTransit))
    ensures Next(Leaving(o, true, true), ProducerTransitStep(CompleteTransit)) == Left(o)
  {
    hide Leaving, Enabled;
  }

  // ---- a read ended after the close ----

  /**
   Every pipe has a run, of callers who never let End calls overlap, in which a consumer is closed in the
   middle of a two-phase read and ending that read fails the CHECK.
   */
  lemma EndAfterCloseFails(o: Options, d: Discipline)
    requires o.Valid()
    ensures exists s :: Reach(Start(o), s, d) && InRange(s) && EndReadData(s.o, s.c, o.elementBytes).0.CheckFailed?
    ensures exists t :: Reach(Start(o), t, d) && t.crashed
  {
    hide Reach, Enabled, Next, Reading, EndReadData;
    BeginReading(o, d);
    var s := Reading(o, 0, o.elementBytes, 0, [], []);
    CloseWhileReading(o);
    ReachStep(Start(o), s, CloseConsumerStep, d);
    var t := Next(s, CloseConsumerStep);
    assert Reach(Start(o), t, d);
    ReachStep(Start(o), t, EndReadStep(o.elementBytes), d);
    assert Reach(Start(o), Next(t, EndReadStep(o.elementBytes)), d);
  }

  lemma CloseWhileReading(o: Options)
    requires o.Valid()
    ensures var (s, e) := (Reading(o, 0, o.elementBytes, 0, [], []), o.elementBytes);
      && Enabled(s, CloseConsumerStep)
      && var t := Next(s, CloseConsumerStep);
      && Enabled(t, EndReadStep(e)) && t.endingReads == 0 && InRange(t)
      && EndReadData(t.o, t.c, e).0.CheckFailed? && Next(t, EndReadStep(e)).crashed
  {
    hide NextOffset;
    ZerosJoin(0, o.capacity);
  }
}
