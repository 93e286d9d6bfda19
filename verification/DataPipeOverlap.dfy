/**
 Calls that end a two-phase operation drop their lock, to notify the peer, before they clear the flag that
 says that one is under way.  A second such call at the same end is let in, and the stream is lost.
 */
module DataPipeOverlap {
  import opened RingMath
  import opened Division
  import opened DataPipe
  import opened DataPipeProtocol
  import opened DataPipeTheorems
  import opened DataPipeLimits

  // ---- ending a read twice ----

  /** A pipe that holds one element, all of it exposed to a reader, of which calls in `ending` have taken some. */
  function Reading(o: Options, r: nat, unread: nat, ending: nat, owed: seq<nat>, consumed: seq<byte>): Pipe
    requires o.Valid()
  {
    var (c, e) := (o.capacity, o.elementBytes);
    var s := Quiet(o, View(Zeros(c), NextOffset(0, e, c), c - e, r, unread, false, Zeros(e), consumed));
    s.(c := s.c.(inTwoPhaseRead := true, twoPhaseMaxBytesRead := e), endingReads := ending, unsentReads := owed)
  }

  lemma BeginReading(o: Options, d: Discipline)
    requires o.Valid()
    ensures Reach(Start(o), Reading(o, 0, o.elementBytes, 0, [], []), d)
  {
    var (c, e) := (o.capacity, o.elementBytes);
    var v := EmptyAt(o, 0, 0);
    ElementIsWhole(e);
    ReachSelf(Start(o), d);
    WriteThrough(Start(o), o, v, Zeros(e), d);
    ZeroRing(c, 0, e);
    ZerosJoin(0, e);
    ZerosCut(e, e);
    var v1 := View(Zeros(c), NextOffset(0, e, c), c - e, 0, e, true, Zeros(e), []);
    assert AfterWrite(o, v, Zeros(e)) == v1;
    hide Reach, Zeros, NextOffset, Stored;
    ReachStep(Start(o), Quiet(o, v1), BeginReadStep, d);
    assert Next(Quiet(o, v1), BeginReadStep) == Reading(o, 0, e, 0, [], []);
  }

  lemma EndReading(o: Options, r: nat, unread: nat, ending: nat, owed: seq<nat>, consumed: seq<byte>)
    requires o.Valid() && r < o.capacity && unread <= o.capacity
    ensures var (e, s) := (o.elementBytes, Reading(o, r, unread, ending, owed, consumed));
      && Enabled(s, EndReadStep(e))
      && Next(s, EndReadStep(e)) ==
           Reading(o, NextOffset(r, e, o.capacity), (unread + U32_RANGE - e) % U32_RANGE, ending + 1, owed + [e],
                   consumed + Loaded(Zeros(o.capacity), r, e))
  {
    hide Loaded, NextOffset;
    ElementIsWhole(o.elementBytes);
    ZerosJoin(0, o.capacity);
  }

  /** Write one element, begin to read it, and end the read twice before the first call has returned. */
  lemma OverlappingReadsBreak(o: Options, d: Discipline)
    requires o.Valid() && d.overlapReads
    ensures Broken(o, d)
  {
    hide Reach, Enabled, Next, Reading, Loaded, NextOffset;
    var (c, e) := (o.capacity, o.elementBytes);
    ZerosJoin(0, c);
    ZerosJoin(0, e);
    BeginReading(o, d);
    var s := Reading(o, 0, e, 0, [], []);
    EndReading(o, 0, e, 0, [], []);
    ReachStep(Start(o), s, EndReadStep(e), d);
    var (r, taken) := (NextOffset(0, e, c), [] + Loaded(Zeros(c), 0, e));
    assert (e + U32_RANGE - e) % U32_RANGE == 0;
    EndReading(o, r, 0, 1, [] + [e], taken);
    var s1 := Reading(o, r, 0, 1, [] + [e], taken);
    ReachStep(Start(o), s1, EndReadStep(e), d);
    var s2 := Next(s1, EndReadStep(e));
    ReadingStreams(o, NextOffset(r, e, c), (0 + U32_RANGE - e) % U32_RANGE, 2, [] + [e] + [e],
                   taken + Loaded(Zeros(c), r, e));
    assert |s2.consumed| == 2 * e && |s2.produced| == e;
    assert Unsafe(o, s2, d);
  }

  lemma ReadingStreams(o: Options, r: nat, unread: nat, ending: nat, owed: seq<nat>, consumed: seq<byte>)
    requires o.Valid()
    ensures var s := Reading(o, r, unread, ending, owed, consumed);
      s.consumed == consumed && s.produced == Zeros(o.elementBytes)
  {
  }

  // ---- ending a write twice ----

  /** A new pipe in which two-phase writes of nothing have begun and ended. */
  function Writing(o: Options, begun: bool, ending: nat, exposed: nat, owed: seq<nat>): Pipe {
    var s := Start(o);
    s.(p := s.p.(inTwoPhaseWrite := begun), endingWrites := ending, exposed := exposed, unsentWrites := owed)
  }

  lemma BeginWriting(o: Options, ending: nat, exposed: nat, owed: seq<nat>)
    requires o.Valid()
    ensures var s := Writing(o, false, ending, exposed, owed);
      Enabled(s, BeginWriteStep) && Next(s, BeginWriteStep) == Writing(o, true, ending, o.capacity, owed)
  {
    ZerosJoin(0, o.capacity);
  }

  lemma EndWriting(o: Options, ending: nat, exposed: nat, owed: seq<nat>)
    requires o.Valid()
    ensures var s := Writing(o, true, ending, exposed, owed);
      Enabled(s, EndWriteStep(0)) && Next(s, EndWriteStep(0)) == Writing(o, true, ending + 1, 0, owed + [0])
  {
    ZerosJoin(0, o.capacity);
    WholeOf(0, o.elementBytes, 0);
    Stays0(o.capacity);
    assert [] + Loaded(Zeros(o.capacity), 0, 0) == [];
  }

  lemma Stays0(c: nat)
    requires 0 < c < U32_RANGE
    ensures NextOffset(0, 0, c) == 0
  {
    DivModUnique(0, U32_RANGE, 0, 0);
    DivModUnique(0, c, 0, 0);
  }

  lemma ReturnFromWriting(o: Options, begun: bool, ending: nat, exposed: nat, owed: seq<nat>)
    requires o.Valid() && ending > 0
    ensures var s := Writing(o, begun, ending, exposed, owed);
      Enabled(s, EndWriteReturnStep) && Next(s, EndWriteReturnStep) == Writing(o, false, ending - 1, exposed, owed)
  {
    ZerosJoin(0, o.capacity);
  }

  /** The late return of one call clears the flag under a write that has begun since. */
  lemma ReachUnguarded(o: Options, d: Discipline)
    requires o.Valid() && d.overlapWrites
    ensures Reach(Start(o), Writing(o, false, 0, o.capacity, [0, 0]), d)
  {
    hide Reach, Enabled, Next, Writing;
    var c := o.capacity;
    ReachSelf(Start(o), d);
    WritingStarts(o);
    BeginWriting(o, 0, 0, []);
    ReachStep(Start(o), Writing(o, false, 0, 0, []), BeginWriteStep, d);
    EndWriting(o, 0, c, []);
    ReachStep(Start(o), Writing(o, true, 0, c, []), EndWriteStep(0), d);
    assert [] + [0] == [0] && [0] + [0] == [0, 0];
    EndWriting(o, 1, 0, [0]);
    ReachStep(Start(o), Writing(o, true, 1, 0, [0]), EndWriteStep(0), d);
    ReturnFromWriting(o, true, 2, 0, [0, 0]);
    ReachStep(Start(o), Writing(o, true, 2, 0, [0, 0]), EndWriteReturnStep, d);
    BeginWriting(o, 1, 0, [0, 0]);
    ReachStep(Start(o), Writing(o, false, 1, 0, [0, 0]), BeginWriteStep, d);
    ReturnFromWriting(o, true, 1, c, [0, 0]);
    ReachStep(Start(o), Writing(o, true, 1, c, [0, 0]), EndWriteReturnStep, d);
  }

  lemma WritingStarts(o: Options)
    ensures Writing(o, false, 0, 0, []) == Start(o)
  {
  }

  /** A pipe with one element written over the exposed buffer, in which user code has then stored a byte. */
  function Overwritten(o: Options, ring: seq<byte>, unread: nat, news: bool, owed: seq<nat>, sent: seq<nat>): Pipe
    requires o.Valid()
  {
    var (c, e) := (o.capacity, o.elementBytes);
    Quiet(o, View(ring, NextOffset(0, e, c), c - e, 0, unread, news, Zeros(e), []))
      .(exposed := c, unsentWrites := owed, toConsumer := sent)
  }

  lemma WriteOverExposed(o: Options)
    requires o.Valid()
    ensures var (s, e) := (Writing(o, false, 0, o.capacity, [0, 0]), o.elementBytes);
      && Enabled(s, WriteStep(Zeros(e), true))
      && Next(s, WriteStep(Zeros(e), true)) == Overwritten(o, Zeros(o.capacity), 0, false, [0, 0, e], [])
  {
    var (c, e) := (o.capacity, o.elementBytes);
    ZerosJoin(0, c);
    ZerosJoin(0, e);
    ZerosCut(e, e);
    ZeroRing(c, 0, e);
    ElementIsWhole(e);
    assert [0, 0] + [e] == [0, 0, e];
    hide Stored, NextOffset, Zeros;
  }

  lemma StoreOverUnread(o: Options)
    requires o.Valid()
    ensures var s := Overwritten(o, Zeros(o.capacity), 0, false, [0, 0, o.elementBytes], []);
      && Enabled(s, PokeStep(0, 1)) && |Zeros(o.capacity)| == o.capacity
      && Next(s, PokeStep(0, 1)) == Overwritten(o, Zeros(o.capacity)[0 := 1], 0, false, [0, 0, o.elementBytes], [])
  {
    hide NextOffset;
    ZerosJoin(0, o.capacity);
  }

  lemma NotifyOfElement(o: Options, ring: seq<byte>)
    requires o.Valid() && |ring| == o.capacity
    ensures var (s, e) := (Overwritten(o, ring, 0, false, [0, 0, o.elementBytes], []), o.elementBytes);
      && Enabled(s, SendWriteStep(2))
      && Next(s, SendWriteStep(2)) == Overwritten(o, ring, 0, false, [0, 0], [e])
    ensures var (s, e) := (Overwritten(o, ring, 0, false, [0, 0], [o.elementBytes]), o.elementBytes);
      && Enabled(s, UpdateConsumerStep(1, false))
      && Next(s, UpdateConsumerStep(1, false)) == Overwritten(o, ring, e, true, [0, 0], [])
  {
    hide NextOffset;
    var e := o.elementBytes;
    assert [0, 0, e][..2] + [0, 0, e][3..] == [0, 0] && [] + [e] == [e];
    assert [e][..1] == [e] && [e][1..] == [] && Sum([e]) == e;
    DrainWritesSums(o.capacity, 0, [e]);
  }

  lemma ReadStoredByte(o: Options, ring: seq<byte>)
    requires o.Valid() && |ring| == o.capacity && ring[0] == 1
    ensures var (s, step) := (Overwritten(o, ring, o.elementBytes, true, [0, 0], []),
                              ReadStep(ReadFlags(false, false, false, true), o.elementBytes));
      Enabled(s, step) && !(Next(s, step).consumed <= Next(s, step).produced)
  {
    hide NextOffset;
    var e := o.elementBytes;
    ElementIsWhole(e);
    ZerosJoin(0, e);
    ZeroAt(e, 0);
    var s := Overwritten(o, ring, e, true, [0, 0], []);
    var t := Next(s, ReadStep(ReadFlags(false, false, false, true), e));
    assert t.consumed == [] + Loaded(ring, 0, e);
    assert t.consumed[0] == 1;
    Differ(t.consumed, t.produced, 0);
  }

  /** The flag cleared too early lets a plain write commit over the exposed buffer, and user code spoil it. */
  lemma OverlappingWritesBreak(o: Options, d: Discipline)
    requires o.Valid() && d.overlapWrites
    ensures Broken(o, d)
  {
    hide Reach, Enabled, Next, Writing, Overwritten, Zeros;
    var (c, e) := (o.capacity, o.elementBytes);
    ReachUnguarded(o, d);
    WriteOverExposed(o);
    ReachStep(Start(o), Writing(o, false, 0, c, [0, 0]), WriteStep(Zeros(e), true), d);
    StoreOverUnread(o);
    ReachStep(Start(o), Overwritten(o, Zeros(c), 0, false, [0, 0, e], []), PokeStep(0, 1), d);
    var ring := Zeros(c)[0 := 1];
    NotifyOfElement(o, ring);
    ReachStep(Start(o), Overwritten(o, ring, 0, false, [0, 0, e], []), SendWriteStep(2), d);
    ReachStep(Start(o), Overwritten(o, ring, 0, false, [0, 0], [e]), UpdateConsumerStep(1, false), d);
    ReadStoredByte(o, ring);
    var step := ReadStep(ReadFlags(false, false, false, true), e);
    ReachStep(Start(o), Overwritten(o, ring, e, true, [0, 0], []), step, d);
    assert Unsafe(o, Next(Overwritten(o, ring, e, true, [0, 0], []), step), d);
  }

  // ---- exactly when every run is safe ----

  predicate SafeRun(states: seq<Pipe>, steps: seq<Step>) {
    |states| == |steps| + 1 && states[|steps|].consumed <= states[|steps|].produced
  }

  predicate RunOfPipe(states: seq<Pipe>, steps: seq<Step>, o: Options, d: Discipline) {
    RunOf(states, steps, d) && Created(states[0]) && states[0].o == o
  }

  /**
   Every run of a pipe is safe, whatever its callers do within a discipline, if and only if the sums of its
   offsets and counts stay below 2^32 and the discipline lets no two calls that end a write, and no two that
   end a read, overlap.
   */
  lemma StreamSafeIff(o: Options, d: Discipline)
    requires o.Valid()
    ensures Exact(o) && !d.overlapWrites && !d.overlapReads <==>
      forall states: seq<Pipe>, steps: seq<Step> | RunOfPipe(states, steps, o, d) :: SafeRun(states, steps)
  {
    hide Next, Enabled, Exact;
    if Exact(o) && !d.overlapWrites && !d.overlapReads {
      forall states: seq<Pipe>, steps: seq<Step> | RunOfPipe(states, steps, o, d) ensures SafeRun(states, steps) {
        CarefulRun(states, steps, o, d);
        StreamSafety(states, steps, |steps|, |steps|);
      }
    } else {
      if !Exact(o) {
        InexactIsBroken(o, d);
      } else if d.overlapWrites {
        OverlappingWritesBreak(o, d);
      } else {
        OverlappingReadsBreak(o, d);
      }
      BrokenRun(o, d);
    }
  }

  lemma CarefulRun(states: seq<Pipe>, steps: seq<Step>, o: Options, d: Discipline)
    requires RunOfPipe(states, steps, o, d) && Exact(o) && !d.overlapWrites && !d.overlapReads
    ensures RunFromCreation(states, steps)
  {
    hide Next, Enabled;
    forall i | 0 <= i < |steps| ensures Orderly(states[i], steps[i]) {
      assert Allowed(states[i], steps[i], d);
    }
  }

  lemma BrokenRun(o: Options, d: Discipline)
    requires o.Valid() && Broken(o, d)
    ensures exists states: seq<Pipe>, steps: seq<Step> :: RunOfPipe(states, steps, o, d) && !SafeRun(states, steps)
  {
    hide Next, Enabled;
    var t :| Unsafe(o, t, d);
    var states, steps :| Leads(states, steps, Start(o), t, d);
    ZerosJoin(0, o.capacity);
    assert Zeros(0) == [];
    assert RunOfPipe(states, steps, o, d) && !SafeRun(states, steps);
  }
}
