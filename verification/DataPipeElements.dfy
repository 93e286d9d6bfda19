/**
 Data pipes carry elements of a fixed size.  Calls only accept whole elements, but a partial write
 is cut at the free capacity; so whether elements can be split depends on the capacity alone.
 */
module DataPipeElements {
  import opened Basics
  import opened RingMath
  import opened Division
  import opened DataPipe
  import opened DataPipeProtocol
  import opened DataPipeTheorems

  predicate OnlyWholeElements(o: Options, states: seq<Pipe>)
    requires o.elementBytes > 0
  {
    forall i :: 0 <= i < |states| ==>
      Whole(|states[i].produced|, o.elementBytes) && Whole(|states[i].consumed|, o.elementBytes)
  }

  /** If the capacity holds a whole number of elements, so does every count in every state of every run. */
  lemma RunKeepsElements(states: seq<Pipe>, steps: seq<Step>, i: nat)
    requires RunFromCreation(states, steps) && i < |states|
    requires Whole(states[0].o.capacity, states[0].o.elementBytes)
    ensures var s := states[i];
      var e := s.o.elementBytes;
      && s.o == states[0].o && e > 0 && Whole(|s.produced|, e) && Whole(|s.consumed|, e)
      && Whole(s.p.availableCapacity, e) && Whole(s.c.bytesAvailable, e)
      && AllWhole(s.unsentWrites, e) && AllWhole(s.toConsumer, e)
      && AllWhole(s.unsentReads, e) && AllWhole(s.toProducer, e)
  {
    hide Next, Enabled, Core;
    RunGrowsStreams(states, steps, 0, i);
    RunKeepsInv(states, steps, i);
    GcdOfMultiple(states[0].o.capacity, states[0].o.elementBytes);
  }

  lemma WriteCommits(s: Pipe, data: seq<byte>)
    requires InRange(s) && s.p.hasRegion && !s.p.inTransit && !s.p.inTwoPhaseWrite && !s.p.peerClosed
    requires data != [] && Whole(|data|, s.o.elementBytes) && s.p.availableCapacity > 0
    ensures var (t, n) := (Write(s, data, false), Min(|data|, s.p.availableCapacity));
      && |t.produced| == |s.produced| + n && t.p == CommitWrite(s.o, s.p, n)
      && t.o == s.o && t.c == s.c && t.crashed == s.crashed && InRange(t)
  {
  }

  /** On a pipe whose capacity is no multiple of the element size, a write that fills it up splits an element. */
  lemma SplitElement(o: Options) returns (states: seq<Pipe>, steps: seq<Step>)
    requires o.Valid() && Exact(o) && !Whole(o.capacity, o.elementBytes)
    ensures RunFromCreation(states, steps) && states[0].o == o && !OnlyWholeElements(o, states)
  {
    hide Write, Exact;
    var (e, q) := (o.elementBytes, o.capacity / o.elementBytes);
    assert o.capacity == q * e + o.capacity % e;
    Multiply(1, q, e);
    WholeOf(q * e, e, q);
    WholeOf(e, e, 1);
    var ring := seq(o.capacity, _ => 0 as byte);
    var s0 := Pipe(o, ring, NewProducer(o), NewConsumer(), 0, 0, 0, 0, [], [], [], [], None, None, [], [], 0, 0, false);
    var (data0, data1) := (seq(q * e, _ => 0 as byte), seq(e, _ => 0 as byte));
    WriteCommits(s0, data0);
    var s1 := Next(s0, WriteStep(data0, false));
    WriteCommits(s1, data1);
    var s2 := Next(s1, WriteStep(data1, false));
    states, steps := [s0, s1, s2], [WriteStep(data0, false), WriteStep(data1, false)];
    assert |states[2].produced| == o.capacity;
  }

  /** In every run only whole elements are committed and consumed, if and only if the capacity is whole. */
  lemma WholeElementsIff(o: Options)
    requires o.Valid() && Exact(o)
    ensures Whole(o.capacity, o.elementBytes) <==>
      forall states: seq<Pipe>, steps: seq<Step> | RunFromCreation(states, steps) && states[0].o == o ::
        OnlyWholeElements(o, states)
  {
    hide Enabled, Next, Init, Orderly, Whole, Exact;
    if Whole(o.capacity, o.elementBytes) {
      forall states: seq<Pipe>, steps: seq<Step> | RunFromCreation(states, steps) && states[0].o == o
        ensures OnlyWholeElements(o, states)
      {
        forall i | 0 <= i < |states|
          ensures Whole(|states[i].produced|, o.elementBytes) && Whole(|states[i].consumed|, o.elementBytes)
        {
          RunKeepsElements(states, steps, i);
        }
      }
    } else {
      var states, steps := SplitElement(o);
    }
  }
}
