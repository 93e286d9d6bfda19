/**
 Where stream safety ends.  It is lost by pipes whose offsets and counts add up past 2^32, and by callers
 that end a two-phase operation while another such call at the same end has dropped its lock; it holds for
 every other pipe and caller.
 */
module DataPipeLimits {
  import opened Basics
  import opened RingMath
  import opened Division
  import opened DataPipe
  import opened DataPipeProtocol
  import opened DataPipeTheorems

  /** Which overlaps of calls that end a two-phase operation the callers of a pipe allow themselves. */
  datatype Discipline = Discipline(overlapWrites: bool, overlapReads: bool)

  predicate Allowed(s: Pipe, step: Step, d: Discipline) {
    && (step.EndWriteStep? && s.endingWrites > 0 ==> d.overlapWrites)
    && (step.EndReadStep? && s.endingReads > 0 ==> d.overlapReads)
  }

  predicate RunOf(states: seq<Pipe>, steps: seq<Step>, d: Discipline) {
    && Run(states, steps)
    && forall i {:trigger steps[i]} :: 0 <= i < |steps| ==> Allowed(states[i], steps[i], d)
  }

  /** Some run of callers who keep to `d` leads from `s` to `t`. */
  ghost predicate Reach(s: Pipe, t: Pipe, d: Discipline) {
    exists states: seq<Pipe>, steps: seq<Step> :: Leads(states, steps, s, t, d)
  }

  predicate Leads(states: seq<Pipe>, steps: seq<Step>, s: Pipe, t: Pipe, d: Discipline) {
    RunOf(states, steps, d) && states[0] == s && states[|steps|] == t
  }

  lemma ReachSelf(s: Pipe, d: Discipline)
    ensures Reach(s, s, d)
  {
    assert Leads([s], [], s, s, d);
  }

  lemma ReachStep(s: Pipe, t: Pipe, step: Step, d: Discipline)
    requires Reach(s, t, d) && Enabled(t, step) && Allowed(t, step, d)
    ensures Reach(s, Next(t, step), d)
  {
    hide Enabled, Next, Allowed;
    var states, steps :| Leads(states, steps, s, t, d);
    var u := Next(t, step);
    var states', steps' := states + [u], steps + [step];
    forall i | 0 <= i < |steps'|
      ensures Enabled(states'[i], steps'[i]) && Allowed(states'[i], steps'[i], d)
      ensures states'[i + 1] == Next(states'[i], steps'[i])
    {
      if i < |steps| {
        assert steps'[i] == steps[i] && states'[i] == states[i] && states'[i + 1] == states[i + 1];
      }
    }
    assert Leads(states', steps', s, u, d);
  }

  // ---- calls with their notifications ----

  /** The few things that differ between the quiet states of a pipe. */
  datatype View = View(ring: seq<byte>, w: nat, room: nat, r: nat, unread: nat, news: bool,
                       produced: seq<byte>, consumed: seq<byte>)

  /** A pipe with both ends open and nothing under way. */
  function Quiet(o: Options, v: View): Pipe {
    Pipe(o, v.ring,
         Producer(v.w, v.room, false, false, true, false, false, false, false),
         Consumer(v.r, v.unread, false, 0, v.news, false, true, false, false, false, false),
         0, 0, 0, 0, [], [], [], [], None, None, v.produced, v.consumed, 0, 0, false)
  }

  predicate Plausible(o: Options, v: View) {
    && o.Valid() && |v.ring| == o.capacity && v.w < o.capacity && v.room <= o.capacity
    && v.r < o.capacity && v.unread <= o.capacity
  }

  function AfterWrite(o: Options, v: View, asked: seq<byte>): View
    requires Plausible(o, v)
  {
    var n := Min(|asked|, v.room);
    View(Stored(v.ring, v.w, asked[..n]), NextOffset(v.w, n, o.capacity), v.room - n, v.r, v.unread + n, true,
         v.produced + asked[..n], v.consumed)
  }

  function AfterRead(o: Options, v: View, asked: nat): View
    requires Plausible(o, v)
  {
    var n := Min(asked, v.unread);
    View(v.ring, v.w, v.room + n, NextOffset(v.r, n, o.capacity), v.unread - n, false,
         v.produced, v.consumed + Loaded(v.ring, v.r, n))
  }

  lemma WriteStepOf(o: Options, v: View, asked: seq<byte>)
    requires Plausible(o, v) && Whole(|asked|, o.elementBytes) && |asked| < U32_RANGE && asked != [] && v.room > 0
    ensures Enabled(Quiet(o, v), WriteStep(asked, false))
    ensures var u := AfterWrite(o, v, asked).(unread := v.unread, news := v.news);
      Next(Quiet(o, v), WriteStep(asked, false)) == Quiet(o, u).(unsentWrites := [Min(|asked|, v.room)])
  {
    hide Stored;
    assert [] + [Min(|asked|, v.room)] == [Min(|asked|, v.room)];
  }

  lemma NotifyOfWrite(o: Options, v: View, n: nat)
    requires Plausible(o, v) && v.unread + n <= o.capacity
    ensures var s := Quiet(o, v).(unsentWrites := [n]);
      Enabled(s, SendWriteStep(0)) && Next(s, SendWriteStep(0)) == Quiet(o, v).(toConsumer := [n])
    ensures var s := Quiet(o, v).(toConsumer := [n]);
      && Enabled(s, UpdateConsumerStep(1, false))
      && Next(s, UpdateConsumerStep(1, false)) == Quiet(o, v.(unread := v.unread + n, news := v.news || n > 0))
  {
    hide Enabled, Next, Quiet;
    SendOfWrite(o, v, n);
    ArrivalOfWrite(o, v, n);
  }

  lemma SendOfWrite(o: Options, v: View, n: nat)
    requires Plausible(o, v)
    ensures var s := Quiet(o, v).(unsentWrites := [n]);
      Enabled(s, SendWriteStep(0)) && Next(s, SendWriteStep(0)) == Quiet(o, v).(toConsumer := [n])
  {
    assert [] + [n] == [n] && [n][..0] + [n][1..] == [];
  }

  lemma ArrivalOfWrite(o: Options, v: View, n: nat)
    requires Plausible(o, v) && v.unread + n <= o.capacity
    ensures var s := Quiet(o, v).(toConsumer := [n]);
      && Enabled(s, UpdateConsumerStep(1, false))
      && Next(s, UpdateConsumerStep(1, false)) == Quiet(o, v.(unread := v.unread + n, news := v.news || n > 0))
  {
    assert [n][..1] == [n] && [n][1..] == [] && Sum([n]) == n;
    DrainWritesSums(o.capacity, v.unread, [n]);
  }

  /** A write, its notification, and the consumer's update. */
  lemma WriteThrough(s0: Pipe, o: Options, v: View, asked: seq<byte>, d: Discipline)
    requires Plausible(o, v) && Reach(s0, Quiet(o, v), d)
    requires Whole(|asked|, o.elementBytes) && |asked| < U32_RANGE && asked != [] && v.room > 0
    requires v.unread + Min(|asked|, v.room) <= o.capacity
    ensures Reach(s0, Quiet(o, AfterWrite(o, v, asked)), d)
  {
    hide Reach, Stored, Quiet, Next, Enabled, Whole;
    var (s, n) := (Quiet(o, v), Min(|asked|, v.room));
    var u := AfterWrite(o, v, asked).(unread := v.unread, news := v.news);
    WriteStepOf(o, v, asked);
    ReachStep(s0, s, WriteStep(asked, false), d);
    NotifyOfWrite(o, u, n);
    ReachStep(s0, Quiet(o, u).(unsentWrites := [n]), SendWriteStep(0), d);
    ReachStep(s0, Quiet(o, u).(toConsumer := [n]), UpdateConsumerStep(1, false), d);
  }

  lemma ReadStepOf(o: Options, v: View, asked: nat)
    requires Plausible(o, v) && Whole(asked, o.elementBytes) && 0 < asked < U32_RANGE && v.unread > 0
    ensures var (step, u) := (ReadStep(ReadFlags(false, false, false, false), asked),
        AfterRead(o, v, asked).(room := v.room));
      Enabled(Quiet(o, v), step) && Next(Quiet(o, v), step) == Quiet(o, u).(unsentReads := [Min(asked, v.unread)])
  {
    hide Loaded;
    assert [] + [Min(asked, v.unread)] == [Min(asked, v.unread)];
  }

  lemma NotifyOfRead(o: Options, v: View, n: nat)
    requires Plausible(o, v) && v.room + n <= o.capacity
    ensures var s := Quiet(o, v).(unsentReads := [n]);
      Enabled(s, SendReadStep(0)) && Next(s, SendReadStep(0)) == Quiet(o, v).(toProducer := [n])
    ensures var s := Quiet(o, v).(toProducer := [n]);
      && Enabled(s, UpdateProducerStep(1, false))
      && Next(s, UpdateProducerStep(1, false)) == Quiet(o, v.(room := v.room + n))
  {
    hide Enabled, Next, Quiet;
    SendOfRead(o, v, n);
    ArrivalOfRead(o, v, n);
  }

  lemma SendOfRead(o: Options, v: View, n: nat)
    requires Plausible(o, v)
    ensures var s := Quiet(o, v).(unsentReads := [n]);
      Enabled(s, SendReadStep(0)) && Next(s, SendReadStep(0)) == Quiet(o, v).(toProducer := [n])
  {
    assert [] + [n] == [n] && [n][..0] + [n][1..] == [];
  }

  lemma ArrivalOfRead(o: Options, v: View, n: nat)
    requires Plausible(o, v) && v.room + n <= o.capacity
    ensures var s := Quiet(o, v).(toProducer := [n]);
      && Enabled(s, UpdateProducerStep(1, false))
      && Next(s, UpdateProducerStep(1, false)) == Quiet(o, v.(room := v.room + n))
  {
    assert [n][..1] == [n] && [n][1..] == [] && Sum([n]) == n;
    DrainReadsSums(o.capacity, v.room, [n]);
  }

  /** A read, its notification, and the producer's update. */
  lemma ReadThrough(s0: Pipe, o: Options, v: View, asked: nat, d: Discipline)
    requires Plausible(o, v) && Reach(s0, Quiet(o, v), d)
    requires Whole(asked, o.elementBytes) && 0 < asked < U32_RANGE && v.unread > 0
    requires v.room + Min(asked, v.unread) <= o.capacity
    ensures Reach(s0, Quiet(o, AfterRead(o, v, asked)), d)
  {
    hide Reach, Loaded, Quiet, Next, Enabled, Whole;
    var (s, n) := (Quiet(o, v), Min(asked, v.unread));
    var (step, u) := (ReadStep(ReadFlags(false, false, false, false), asked), AfterRead(o, v, asked).(room := v.room));
    ReadStepOf(o, v, asked);
    ReachStep(s0, s, step, d);
    NotifyOfRead(o, u, n);
    ReachStep(s0, Quiet(o, u).(unsentReads := [n]), SendReadStep(0), d);
    ReachStep(s0, Quiet(o, u).(toProducer := [n]), UpdateProducerStep(1, false), d);
  }

  // ---- walking around the ring ----

  function Zeros(n: nat): seq<byte> { seq(n, _ => 0) }

  function Ones(n: nat): seq<byte> { seq(n, _ => 1) }

  /** Zeros but for a one at `k`. */
  function Mark(n: nat, k: nat): seq<byte> { seq(n, i => if i == k then 1 else 0) }

  /** An empty pipe at offset `x` through which `n` zeros have gone. */
  function EmptyAt(o: Options, x: nat, n: nat): View {
    View(Zeros(o.capacity), x, o.capacity, x, 0, false, Zeros(n), Zeros(n))
  }

  function Start(o: Options): Pipe { Quiet(o, EmptyAt(o, 0, 0)) }

  lemma ZeroRing(c: nat, at: nat, n: nat)
    requires at < c && n <= c
    ensures Stored(Zeros(c), at, Zeros(n)) == Zeros(c) && Loaded(Zeros(c), at, n) == Zeros(n)
  {
  }

  lemma ZerosJoin(m: nat, n: nat)
    ensures Zeros(m) + Zeros(n) == Zeros(m + n) && |Zeros(n)| == n
  {
  }

  lemma ElementIsWhole(e: nat)
    requires e > 0
    ensures Whole(e, e)
  {
    WholeOf(e, e, 1);
  }

  /** One element through an empty pipe moves both offsets alike. */
  lemma OneElement(o: Options, x: nat, n: nat, d: Discipline)
    requires o.Valid() && x < o.capacity && Reach(Start(o), Quiet(o, EmptyAt(o, x, n)), d)
    ensures Reach(Start(o), Quiet(o, EmptyAt(o, NextOffset(x, o.elementBytes, o.capacity), n + o.elementBytes)), d)
  {
    hide Reach, Quiet, Stored, Loaded, Zeros;
    var (c, e) := (o.capacity, o.elementBytes);
    ZerosJoin(n, e);
    ZerosJoin(0, c);
    ElementIsWhole(e);
    ZeroRing(c, x, e);
    var v := EmptyAt(o, x, n);
    assert Zeros(e)[..e] == Zeros(e);
    WriteThrough(Start(o), o, v, Zeros(e), d);
    ReadThrough(Start(o), o, AfterWrite(o, v, Zeros(e)), e, d);
  }

  /** Element by element both offsets get to `m * e % c`, or first to an offset from which one element wraps. */
  lemma {:induction false} Walk(o: Options, m: nat, d: Discipline) returns (x: nat, n: nat)
    requires o.Valid()
    ensures x < o.capacity && Reach(Start(o), Quiet(o, EmptyAt(o, x, n)), d)
    ensures x == LapOffset(o.capacity, o.elementBytes, m) || x + o.elementBytes >= U32_RANGE
  {
    hide Reach, Quiet, EmptyAt, NextOffset;
    LapStarts(o.capacity, o.elementBytes);
    hide LapOffset;
    if m == 0 {
      ReachSelf(Start(o), d);
      return 0, 0;
    }
    x, n := Walk(o, m - 1, d);
    if x + o.elementBytes < U32_RANGE {
      OneElement(o, x, n, d);
      NextOnTheWay(o.capacity, o.elementBytes, m, x);
      return NextOffset(x, o.elementBytes, o.capacity), n + o.elementBytes;
    }
  }

  /** Where `m` elements lead in a ring of `c` bytes. */
  function LapOffset(c: nat, e: nat, m: nat): nat
    requires c > 0
  {
    (m * e) % c
  }

  lemma LapStarts(c: nat, e: nat)
    requires c > 0
    ensures LapOffset(c, e, 0) == 0
  {
    DivModUnique(0, c, 0, 0);
  }

  lemma NextOnTheWay(c: nat, e: nat, m: nat, x: nat)
    requires 0 < e <= c && m > 0 && x == LapOffset(c, e, m - 1) && x + e < U32_RANGE
    ensures NextOffset(x, e, c) == LapOffset(c, e, m)
  {
    Multiply(0, m - 1, e);
    assert m * e == (m - 1) * e + e;
    SlotStep((m - 1) * e, e, c);
    DivModUnique(x + e, U32_RANGE, 0, x + e);
  }

  // ---- three ways to lose a stream ----

  /** Some run leads to a state where what was read is not a prefix of what was written. */
  ghost predicate Broken(o: Options, d: Discipline) {
    exists t :: Unsafe(o, t, d)
  }

  ghost predicate Unsafe(o: Options, t: Pipe, d: Discipline) {
    Reach(Start(o), t, d) && !(t.consumed <= t.produced)
  }

  /** As many bytes as one call can ask for. */
  function MostAsked(o: Options): nat
    requires o.Valid()
  {
    (U32_RANGE - 1) / o.elementBytes * o.elementBytes
  }

  lemma MostAskedFits(o: Options)
    requires o.Valid()
    ensures Whole(MostAsked(o), o.elementBytes) && o.elementBytes <= MostAsked(o) < U32_RANGE
    ensures LargestCount(o) == Min(o.capacity, MostAsked(o)) && o.elementBytes <= LargestCount(o) <= o.capacity
  {
    var (e, q) := (o.elementBytes, (U32_RANGE - 1) / o.elementBytes);
    assert U32_RANGE - 1 == q * e + (U32_RANGE - 1) % e;
    Multiply(1, q, e);
    WholeOf(q * e, e, q);
  }

  lemma Wraps(x: nat, n: nat, c: nat)
    requires x < c < U32_RANGE && n <= c && x + n >= U32_RANGE
    ensures NextOffset(x, n, c) == x + n - U32_RANGE
  {
    DivModUnique(x + n, U32_RANGE, 1, x + n - U32_RANGE);
    DivModUnique(x + n - U32_RANGE, c, 0, x + n - U32_RANGE);
  }

  /** What follows a write without looking into the ring. */
  lemma WriteShape(o: Options, v: View, asked: seq<byte>)
    requires Plausible(o, v) && v.unread + v.room <= o.capacity
    ensures var (u, n) := (AfterWrite(o, v, asked), Min(|asked|, v.room));
      && Plausible(o, u) && u.unread == v.unread + n && u.room == v.room - n && u.r == v.r
      && u.w == NextOffset(v.w, n, o.capacity) && u.consumed == v.consumed && u.produced == v.produced + asked[..n]
      && u.ring == Stored(v.ring, v.w, asked[..n])
  {
    hide Stored, NextOffset;
  }

  lemma ReadShape(o: Options, v: View, asked: nat)
    requires Plausible(o, v) && v.unread + v.room <= o.capacity
    ensures var (u, n) := (AfterRead(o, v, asked), Min(asked, v.unread));
      && Plausible(o, u) && u.unread == v.unread - n && u.room == v.room + n && u.w == v.w && u.ring == v.ring
      && u.r == NextOffset(v.r, n, o.capacity) && u.produced == v.produced
          && u.consumed == v.consumed + Loaded(v.ring, v.r, n)
  {
    hide Loaded, NextOffset;
  }

  /** If reading one element wraps, the next byte is read from the wrong place. */
  lemma ReaderStrays(o: Options, x: nat, n: nat, d: Discipline)
    requires o.Valid() && x < o.capacity && Reach(Start(o), Quiet(o, EmptyAt(o, x, n)), d)
    requires x + o.elementBytes >= U32_RANGE && o.elementBytes < LargestCount(o)
    ensures Broken(o, d)
  {
    hide Reach, Quiet, Stored, Loaded, LargestCount, MostAsked, NextOffset, AfterWrite, AfterRead, Mark, Zeros, Whole;
    var (c, e, f) := (o.capacity, o.elementBytes, LargestCount(o));
    MostAskedFits(o);
    ElementIsWhole(e);
    ZerosJoin(0, c);
    var (v, asked) := (EmptyAt(o, x, n), Mark(MostAsked(o), e));
    MarkAt(MostAsked(o), e);
    WriteShape(o, v, asked);
    WriteThrough(Start(o), o, v, asked, d);
    var v1 := AfterWrite(o, v, asked);
    ReadShape(o, v1, e);
    ReadThrough(Start(o), o, v1, e, d);
    var v2 := AfterRead(o, v1, e);
    ReadShape(o, v2, e);
    ReadThrough(Start(o), o, v2, e, d);
    var v3 := AfterRead(o, v2, e);
    Wraps(x, e, c);
    StrayByte(c, x, e, f, asked[..f], Min(e, f - e));
    ZerosJoin(0, n);
    Differ(v3.consumed, v3.produced, n + e);
    BrokenBy(o, v3, d);
  }

  lemma MarkAt(n: nat, k: nat)
    ensures |Mark(n, k)| == n && forall i :: 0 <= i < n ==> Mark(n, k)[i] == if i == k then 1 else 0
  {
  }

  lemma Differ(x: seq<byte>, y: seq<byte>, k: nat)
    requires k < |x| && k < |y| && x[k] != y[k]
    ensures !(x <= y)
  {
  }

  lemma BrokenBy(o: Options, v: View, d: Discipline)
    requires Reach(Start(o), Quiet(o, v), d) && !(v.consumed <= v.produced)
    ensures Broken(o, d)
  {
    assert Unsafe(o, Quiet(o, v), d);
  }

  lemma StrayByte(c: nat, x: nat, e: nat, f: nat, data: seq<byte>, k: nat)
    requires x < c < U32_RANGE && e < f <= c && x + e >= U32_RANGE && 0 < k <= c
    requires |data| == f && forall i :: 0 <= i < f ==> data[i] == if i == e then 1 else 0
    ensures var (ring, r) := (Stored(Zeros(c), x, data), x + e - U32_RANGE);
      |Loaded(ring, r, k)| == k && Loaded(ring, r, k)[0] == 0
  {
    var (ring, r) := (Stored(Zeros(c), x, data), x + e - U32_RANGE);
    assert Loaded(ring, r, k)[0] == ring[r];
  }

  /** The pipe filled from offset `x` and one element of it read, when filling wraps and reading does not. */
  function Filled(o: Options, x: nat, n: nat): View
    requires o.Valid() && x < o.capacity && U32_RANGE <= x + LargestCount(o) && o.capacity <= x + o.elementBytes
    requires o.elementBytes < LargestCount(o)
  {
    var (c, e, f) := (o.capacity, o.elementBytes, LargestCount(o));
    View(Zeros(c), x + f - U32_RANGE, c - f + e, x + e - c, f - e, false, Zeros(n + f), Zeros(n + e))
  }

  lemma ReachFilled(o: Options, x: nat, n: nat, d: Discipline)
    requires o.Valid() && x < o.capacity && U32_RANGE <= x + LargestCount(o) && o.capacity <= x + o.elementBytes
    requires o.elementBytes < LargestCount(o) && x + o.elementBytes < U32_RANGE
    requires Reach(Start(o), Quiet(o, EmptyAt(o, x, n)), d)
    ensures Reach(Start(o), Quiet(o, Filled(o, x, n)), d)
  {
    hide Reach, Quiet, Stored, Loaded, LargestCount, MostAsked, NextOffset, Zeros, Whole;
    var (c, e, f, q) := (o.capacity, o.elementBytes, LargestCount(o), MostAsked(o));
    MostAskedFits(o);
    ElementIsWhole(e);
    ZerosJoin(0, c);
    ZerosJoin(0, q);
    ZerosCut(q, f);
    ZeroRing(c, x, f);
    ZeroRing(c, x, e);
    ZerosJoin(n, f);
    ZerosJoin(n, e);
    var v := EmptyAt(o, x, n);
    WriteThrough(Start(o), o, v, Zeros(q), d);
    Wraps(x, f, c);
    ReadThrough(Start(o), o, AfterWrite(o, v, Zeros(q)), e, d);
    Laps(x, e, c);
  }

  /** That pipe filled up again and read to the end. */
  lemma ReachOverwritten(o: Options, x: nat, n: nat, d: Discipline) returns (u: View)
    requires o.Valid() && x < o.capacity && U32_RANGE <= x + LargestCount(o) && o.capacity <= x + o.elementBytes
    requires o.elementBytes < LargestCount(o) && x + o.elementBytes < U32_RANGE
    requires Reach(Start(o), Quiet(o, EmptyAt(o, x, n)), d)
    ensures Reach(Start(o), Quiet(o, u), d)
    ensures var v := Filled(o, x, n);
      && v.w < o.capacity && v.r < o.capacity && |v.ring| == o.capacity && LargestCount(o) <= o.capacity
      && u.produced == v.produced + Ones(o.elementBytes)
      && u.consumed == v.consumed + Loaded(Stored(v.ring, v.w, Ones(o.elementBytes)), v.r, LargestCount(o))
  {
    hide Reach, Quiet, Stored, Loaded, LargestCount, MostAsked, NextOffset, AfterWrite, AfterRead, Zeros, Ones, Whole;
    var (c, e, q) := (o.capacity, o.elementBytes, MostAsked(o));
    ReachFilled(o, x, n, d);
    MostAskedFits(o);
    ElementIsWhole(e);
    ZerosJoin(0, c);
    OnesLength(e);
    var v := Filled(o, x, n);
    WriteShape(o, v, Ones(e));
    WriteThrough(Start(o), o, v, Ones(e), d);
    var v1 := AfterWrite(o, v, Ones(e));
    assert Ones(e)[..e] == Ones(e);
    ReadShape(o, v1, q);
    ReadThrough(Start(o), o, v1, q, d);
    u := AfterRead(o, v1, q);
  }

  /** If filling wraps but reading one element does not, the producer next overwrites what is still unread. */
  lemma WriterStrays(o: Options, x: nat, n: nat, d: Discipline)
    requires o.Valid() && x < o.capacity && U32_RANGE <= x + LargestCount(o) && o.capacity <= x + o.elementBytes
    requires o.elementBytes < LargestCount(o) && x + o.elementBytes < U32_RANGE
    requires Reach(Start(o), Quiet(o, EmptyAt(o, x, n)), d)
    ensures Broken(o, d)
  {
    hide Reach, Quiet, Stored, Loaded, LargestCount, Zeros, Ones;
    var (c, e, f) := (o.capacity, o.elementBytes, LargestCount(o));
    var v := Filled(o, x, n);
    var v2 := ReachOverwritten(o, x, n, d);
    var p := if v.w >= v.r then v.w - v.r else 0;
    OverwrittenByte(c, v.w, e, v.r, f, p);
    ZeroAt(n + f, n + e + p);
    ZerosJoin(0, n + e);
    Differ(v2.consumed, v2.produced, n + e + p);
    BrokenBy(o, v2, d);
  }

  lemma OnesLength(n: nat)
    ensures |Ones(n)| == n
  {
  }

  lemma ZeroAt(n: nat, k: nat)
    requires k < n
    ensures |Zeros(n)| == n && Zeros(n)[k] == 0
  {
  }

  lemma ZerosCut(q: nat, f: nat)
    requires f <= q
    ensures Zeros(q)[..f] == Zeros(f)
  {
  }

  lemma Laps(x: nat, n: nat, c: nat)
    requires x < c && n <= c && c <= x + n < U32_RANGE
    ensures NextOffset(x, n, c) == x + n - c
  {
    DivModUnique(x + n, U32_RANGE, 0, x + n);
    DivModUnique(x + n, c, 1, x + n - c);
  }

  lemma OverwrittenByte(c: nat, b: nat, e: nat, r: nat, f: nat, p: nat)
    requires b < c && r < e <= c && f <= c && p < f && r + p < c
    requires p == if b >= r then b - r else 0
    ensures var ring := Stored(Zeros(c), b, Ones(e));
      |Ones(e)| == e && |Loaded(ring, r, f)| == f && Loaded(ring, r, f)[p] == 1
  {
    var ring := Stored(Zeros(c), b, Ones(e));
    assert Loaded(ring, r, f)[p] == ring[r + p];
  }

  /** With elements of at least 2^31 bytes, short of the capacity, the second element wraps. */
  lemma HugeElementsStray(o: Options, d: Discipline)
    requires o.Valid() && o.elementBytes < o.capacity && 2 * o.elementBytes >= U32_RANGE
    ensures Broken(o, d)
  {
    hide Reach, Quiet, Stored, Loaded, NextOffset, AfterWrite, AfterRead, Mark, Zeros, Whole;
    var (c, e) := (o.capacity, o.elementBytes);
    ReachTwoElements(o, d);
    ElementIsWhole(e);
    ZerosJoin(0, c);
    var (v, data) := (TwoElements(o), Mark(e, 2 * e - c));
    MarkAt(e, 2 * e - c);
    WriteShape(o, v, data);
    WriteThrough(Start(o), o, v, data, d);
    var v1 := AfterWrite(o, v, data);
    assert data[..e] == data;
    ReadShape(o, v1, e);
    ReadThrough(Start(o), o, v1, e, d);
    var v2 := AfterRead(o, v1, e);
    Wraps(e, e, c);
    ReadShape(o, v2, e);
    ReadThrough(Start(o), o, v2, e, d);
    var v3 := AfterRead(o, v2, e);
    HugeStrayByte(c, e, data);
    ZerosJoin(0, e);
    Differ(v3.consumed, v3.produced, 2 * e);
    BrokenBy(o, v3, d);
  }

  /** A pipe filled by two calls, with the first element read. */
  function TwoElements(o: Options): View
    requires o.Valid()
  {
    var (c, e) := (o.capacity, o.elementBytes);
    View(Zeros(c), 0, e, e, c - e, false, Zeros(c), Zeros(e))
  }

  lemma ReachTwoElements(o: Options, d: Discipline)
    requires o.Valid() && o.elementBytes < o.capacity && 2 * o.elementBytes >= U32_RANGE
    ensures Reach(Start(o), Quiet(o, TwoElements(o)), d)
  {
    hide Reach, Quiet, Stored, Loaded, NextOffset, Zeros, Whole;
    var (c, e) := (o.capacity, o.elementBytes);
    ElementIsWhole(e);
    ZerosJoin(0, c);
    ZerosJoin(0, e);
    ZerosCut(e, c - e);
    ZerosCut(e, e);
    ZerosJoin(e, c - e);
    ZeroRing(c, 0, e);
    ZeroRing(c, e, c - e);
    Stays(0, e, c);
    Laps(e, c - e, c);
    var v := EmptyAt(o, 0, 0);
    ReachSelf(Start(o), d);
    WriteThrough(Start(o), o, v, Zeros(e), d);
    var v1 := AfterWrite(o, v, Zeros(e));
    WriteThrough(Start(o), o, v1, Zeros(e), d);
    var v2 := AfterWrite(o, v1, Zeros(e));
    ReadThrough(Start(o), o, v2, e, d);
  }

  lemma Stays(x: nat, n: nat, c: nat)
    requires x + n < c < U32_RANGE
    ensures NextOffset(x, n, c) == x + n
  {
    DivModUnique(x + n, U32_RANGE, 0, x + n);
    DivModUnique(x + n, c, 0, x + n);
  }

  lemma HugeStrayByte(c: nat, e: nat, data: seq<byte>)
    requires e < c < U32_RANGE <= 2 * e && |data| == e
    requires forall i :: 0 <= i < e ==> data[i] == if i == 2 * e - c then 1 else 0
    ensures var ring := Stored(Zeros(c), 0, data);
      |Loaded(ring, e, e)| == e && |Loaded(ring, 2 * e - U32_RANGE, c - e)| == c - e
      && Loaded(ring, 2 * e - U32_RANGE, c - e)[0] == 0
  {
    var ring := Stored(Zeros(c), 0, data);
    assert Loaded(ring, 2 * e - U32_RANGE, c - e)[0] == ring[2 * e - U32_RANGE];
  }

  /** Any pipe whose sums can reach 2^32 has a run that loses its stream, with the most careful callers. */
  lemma InexactIsBroken(o: Options, d: Discipline)
    requires o.Valid() && !Exact(o)
    ensures Broken(o, d)
  {
    hide Reach, Quiet, EmptyAt, LargestCount, Broken;
    var (c, e, g, f) := (o.capacity, o.elementBytes, Grain(o), LargestCount(o));
    GrainDivides(o);
    MostAskedFits(o);
    if f == e {
      InexactHuge(o);
      HugeElementsStray(o, d);
    } else {
      var m := StepsReachLast(c, e);
      var x, n := Walk(o, m, d);
      if x + e >= U32_RANGE {
        ReaderStrays(o, x, n, d);
      } else {
        WriterStrays(o, x, n, d);
      }
    }
  }

  lemma InexactHuge(o: Options)
    requires o.Valid() && !Exact(o) && LargestCount(o) == o.elementBytes
    ensures o.elementBytes < o.capacity && 2 * o.elementBytes >= U32_RANGE
  {
    var (c, e, q) := (o.capacity, o.elementBytes, (U32_RANGE - 1) / o.elementBytes);
    GrainDivides(o);
    if e == c {
      ElementIsWhole(e);
      GcdOfMultiple(c, e);
    } else {
      assert U32_RANGE - 1 == q * e + (U32_RANGE - 1) % e;
      if q >= 2 { Multiply(2, q, e); }
      assert q * e == e;
    }
  }
}
