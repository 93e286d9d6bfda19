/** Whole calls on the shared-memory ring: what a `TryWrite` or a callback does when its thread runs by itself. */
module SharedRingCalls {
  import opened Basics
  import opened Messages
  import opened SharedRing
  import opened SharedRingProof

  function UnreadBytes(s: Ring): nat
    requires s.delivered <= |s.sent|
  {
    |Flatten(s.sent[s.delivered..])|
  }

  lemma UnreadIsRest(s: Ring)
    requires StreamInv(s)
    ensures |Flatten(s.sent)| == End(s, s.delivered) + UnreadBytes(s)
    ensures NumBytesInUse(s.len, s.readPos, s.writePos) == UnreadBytes(s) < s.len
  {
    FlattenSplit(s.sent, s.delivered, |s.sent|);
    assert s.sent[..|s.sent|] == s.sent && s.sent[s.delivered..|s.sent|] == s.sent[s.delivered..];
    BytesInUse(End(s, s.delivered), |Flatten(s.sent)|, s.len);
  }

  // ---- a write ----

  /** From `s` thread `t`, left to itself, is out of `TryWrite` and `Notify` within `n` steps, in state `u`. */
  ghost predicate WriterEnds(s: Ring, t: nat, u: Ring, n: nat)
    decreases n
  {
    if t !in s.writers then u == s
    else n > 0 && Enabled(s, AdvanceWriter(t)) && WriterEnds(Next(s, AdvanceWriter(t)), t, u, n - 1)
  }

  lemma {:induction false} WriterEndsOnce(s: Ring, t: nat, u: Ring, n: nat, v: Ring, m: nat)
    requires WriterEnds(s, t, u, n) && WriterEnds(s, t, v, m)
    ensures u == v
    decreases n
  {
    hide Enabled, Next;
    if t in s.writers {
      WriterEndsOnce(Next(s, AdvanceWriter(t)), t, u, n - 1, v, m - 1);
    }
  }

  /** The ring once `data` was published by thread `t`, with `mem` in memory. */
  function Published(s: Ring, t: nat, data: Bytes, mem: Bytes, writePos: nat): Ring {
    s.(mem := mem, writePos := writePos, sent := s.sent + [data], writeFlag := false, writeOwner := None,
       writers := s.writers - {t}, signal := true)
  }

  lemma PublishAlone(s: Ring, t: nat)
    requires 0 < s.len == |s.mem| && s.writePos < s.len && t in s.writers && s.writers[t].WriterCopying?
    requires s.writers[t].k == |s.writers[t].data| && s.writers[t].w == s.writePos
    ensures var pc := s.writers[t];
      WriterEnds(s, t, Published(s, t, pc.data, s.mem, (pc.w + |pc.data|) % s.len), 3)
  {
    var pc := s.writers[t];
    var s1 := Next(s, AdvanceWriter(t));
    assert s1.writers[t] == WriterPublished;
    var s2 := Next(s1, AdvanceWriter(t));
    var s3 := Next(s2, AdvanceWriter(t));
    assert s3.writers == s.writers - {t};
    assert WriterEnds(s3, t, s3, 0) && WriterEnds(s2, t, s3, 1) && WriterEnds(s1, t, s3, 2);
  }

  lemma CopyStep(s: Ring, t: nat)
    requires Inv(s) && t in s.writers && s.writers[t].WriterCopying?
    ensures var pc := s.writers[t];
      && 0 < s.len == |s.mem| && pc.w == s.writePos < s.len && pc.k <= |pc.data| && Enabled(s, AdvanceWriter(t))
      && (pc.k < |pc.data| ==>
            var s1 := Next(s, AdvanceWriter(t));
            Inv(s1) && s1 == s.(mem := s1.mem, writers := s.writers[t := pc.(k := pc.k + 1)]))
  {
    assert s.writeOwner == Some(t);
    WriterStepKeepsInv(s, t);
  }

  lemma {:induction false} CopyAlone(s: Ring, t: nat) returns (mem: Bytes, n: nat)
    requires Inv(s) && t in s.writers && s.writers[t].WriterCopying?
    ensures var pc := s.writers[t];
      0 < s.len && WriterEnds(s, t, Published(s, t, pc.data, mem, (pc.w + |pc.data|) % s.len), n)
    decreases if s.writers[t].k <= |s.writers[t].data| then |s.writers[t].data| - s.writers[t].k else 0
  {
    hide Inv, Enabled, Next;
    CopyStep(s, t);
    var pc := s.writers[t];
    if pc.k == |pc.data| {
      PublishAlone(s, t);
      return s.mem, 3;
    }
    var s1 := Next(s, AdvanceWriter(t));
    mem, n := CopyAlone(s1, t);
    assert s1.writers - {t} == s.writers - {t};
    n := n + 1;
  }

  /** There is room for the message, and a byte to spare. */
  predicate Fits(s: Ring, data: Bytes)
    requires s.delivered <= |s.sent|
  {
    UnreadBytes(s) + |data| < s.len
  }

  lemma LoadStep(s: Ring, t: nat, data: Bytes)
    requires Inv(s) && t in s.writers && s.writers[t] == WriterLocked(data)
    ensures Enabled(s, AdvanceWriter(t)) && s.delivered <= |s.sent|
    ensures var s1 := Next(s, AdvanceWriter(t));
      Inv(s1) && s1 == s.(writers := s.writers[t := WriterLoadedRead(data, s.readPos, End(s, s.delivered))])
  {
    WriterLockedKeepsInv(s, t);
  }

  lemma DecideStep(s: Ring, t: nat, data: Bytes)
    requires Inv(s) && t in s.writers && s.writers[t] == WriterLoadedRead(data, s.readPos, End(s, s.delivered))
    ensures Enabled(s, AdvanceWriter(t)) && 0 < s.len == |s.mem|
    ensures var s1 := Next(s, AdvanceWriter(t));
      var pc := if Fits(s, data) then WriterCopying(data, s.writePos, End(s, s.delivered), 0) else WriterFailing;
      Inv(s1) && s1 == s.(writers := s.writers[t := pc])
  {
    UnreadIsRest(s);
    WriterLoadedReadKeepsInv(s, t);
  }

  lemma LockedAlone(s: Ring, t: nat, data: Bytes) returns (mem: Bytes, n: nat)
    requires Inv(s) && t in s.writers && s.writers[t] == WriterLocked(data)
    ensures var writePos := (s.writePos + |data|) % s.len;
      if Fits(s, data) then WriterEnds(s, t, Published(s, t, data, mem, writePos), n)
      else WriterEnds(s, t, s.(writeFlag := false, writeOwner := None, writers := s.writers - {t}), n)
  {
    LoadStep(s, t, data);
    hide Inv, Enabled, Next;
    var s1 := Next(s, AdvanceWriter(t));
    DecideStep(s1, t, data);
    var s2 := Next(s1, AdvanceWriter(t));
    assert s2.writers - {t} == s.writers - {t};
    if Fits(s, data) {
      mem, n := CopyAlone(s2, t);
      assert WriterEnds(s1, t, Published(s, t, data, mem, (s.writePos + |data|) % s.len), n + 1);
      n := n + 2;
    } else {
      FailAlone(s2, t);
      assert WriterEnds(s1, t, s.(writeFlag := false, writeOwner := None, writers := s.writers - {t}), 2);
      mem, n := s.mem, 3;
    }
  }

  lemma FailAlone(s: Ring, t: nat)
    requires 0 < s.len == |s.mem| && t in s.writers && s.writers[t].WriterFailing?
    ensures WriterEnds(s, t, s.(writeFlag := false, writeOwner := None, writers := s.writers - {t}), 1)
  {
    var s1 := Next(s, AdvanceWriter(t));
    assert WriterEnds(s1, t, s1, 0);
  }

  /** The ring after a whole write of `data`. */
  function Written(s: Ring, data: Bytes, mem: Bytes): Ring
    requires s.delivered <= |s.sent| && 0 < s.len
  {
    if s.writeFlag || !Fits(s, data) then s
    else s.(mem := mem, writePos := (s.writePos + |data|) % s.len, sent := s.sent + [data], signal := true)
  }

  /**
   A write by a thread that nobody interrupts comes to an end: with the message published, and the eventfd set, if
   the lock was free and the message and the unread bytes leave a byte; with the ring as it was otherwise.
   */
  lemma TryWriteAlone(s: Ring, t: nat, data: Bytes) returns (mem: Bytes, n: nat)
    requires Inv(s) && Enabled(s, StartWrite(t, data))
    ensures s.delivered <= |s.sent| && 0 < s.len
    ensures WriterEnds(Next(s, StartWrite(t, data)), t, Written(s, data, mem), n)
  {
    UnreadIsRest(s);
    var s1 := Next(s, StartWrite(t, data));
    if s.writeFlag || |data| > s.len {
      assert WriterEnds(s1, t, s, 0);
      return s.mem, 0;
    }
    StartWriteKeepsInv(s, t, data);
    assert s1 == s.(writeFlag := true, writeOwner := Some(t), writers := s.writers[t := WriterLocked(data)]);
    assert s1.writers - {t} == s.writers && s.writeOwner == None;
    hide Inv, Enabled, Next;
    mem, n := LockedAlone(s1, t, data);
  }

  /** However such a write ends, it has published its message exactly under that condition, and nothing else. */
  lemma WritePublishesIff(s: Ring, t: nat, data: Bytes, u: Ring, n: nat)
    requires Inv(s) && Enabled(s, StartWrite(t, data)) && WriterEnds(Next(s, StartWrite(t, data)), t, u, n)
    ensures u.sent == s.sent + [data] <==> !s.writeFlag && Fits(s, data)
    ensures u.sent == s.sent <==> s.writeFlag || !Fits(s, data)
    ensures u == s.(mem := u.mem, writePos := u.writePos, sent := u.sent, signal := u.signal)
    ensures u.sent != s.sent ==> u.signal
  {
    hide StreamInv, LockInv, BatchInv, WakeInv, Next, Enabled;
    var mem, m := TryWriteAlone(s, t, data);
    WriterEndsOnce(Next(s, StartWrite(t, data)), t, u, n, Written(s, data, mem), m);
    assert |s.sent + [data]| == |s.sent| + 1;
  }

  // ---- a callback ----

  /** From `s` thread `t`, left to itself, is out of `SharedMemReadReady` within `n` steps, in state `u`. */
  ghost predicate ReaderEnds(s: Ring, t: nat, u: Ring, n: nat)
    decreases n
  {
    if t !in s.readers then u == s
    else n > 0 && Enabled(s, AdvanceReader(t)) && ReaderEnds(Next(s, AdvanceReader(t)), t, u, n - 1)
  }

  lemma {:induction false} ReaderEndsOnce(s: Ring, t: nat, u: Ring, n: nat, v: Ring, m: nat)
    requires ReaderEnds(s, t, u, n) && ReaderEnds(s, t, v, m)
    ensures u == v
    decreases n
  {
    hide Enabled, Next;
    if t in s.readers {
      ReaderEndsOnce(Next(s, AdvanceReader(t)), t, u, n - 1, v, m - 1);
    }
  }

  /** The ring with everything read out, by thread `t`, which has left. */
  function Drained(s: Ring, t: nat): Ring
    requires s.delivered <= |s.sent|
  {
    var d := s.(readFlag := false, readOwner := None, readers := s.readers - {t});
    if UnreadBytes(s) == 0 then d
    else
      d.(readPos := s.writePos, delivered := |s.sent|,
         batches := s.batches + [Flatten(s.sent[s.delivered..])], cuts := s.cuts + [|s.sent|])
  }

  /** A round of the loop loads the read position, and then the write position. */
  lemma LookStep(s: Ring, t: nat)
    requires Inv(s) && t in s.readers && s.readers[t].ReaderTop?
    ensures Enabled(s, AdvanceReader(t))
    ensures var s1 := Next(s, AdvanceReader(t));
      Inv(s1) && s1 == s.(readers := s.readers[t := ReaderLoadedRead(s.readPos)])
  {
    ReaderStepKeepsInv(s, t);
  }

  lemma FindStep(s: Ring, t: nat)
    requires Inv(s) && t in s.readers && s.readers[t] == ReaderLoadedRead(s.readPos)
    ensures Enabled(s, AdvanceReader(t)) && s.delivered <= |s.sent|
    ensures var s1 := Next(s, AdvanceReader(t));
      var n := UnreadBytes(s);
      var pc := if n == 0 then ReaderDone else ReaderCopying(s.readPos, s.writePos, |s.sent|, n, []);
      Inv(s1) && s1 == s.(readers := s.readers[t := pc])
  {
    UnreadIsRest(s);
    ReaderStepKeepsInv(s, t);
  }

  lemma LeaveAlone(s: Ring, t: nat)
    requires 0 < s.len == |s.mem| && t in s.readers && s.readers[t].ReaderDone?
    ensures ReaderEnds(s, t, s.(readFlag := false, readOwner := None, readers := s.readers - {t}), 1)
  {
    var s1 := Next(s, AdvanceReader(t));
    assert ReaderEnds(s1, t, s1, 0);
  }

  /** The last round of the loop finds nothing. */
  lemma EmptyAlone(s: Ring, t: nat)
    requires Inv(s) && t in s.readers && s.readers[t].ReaderTop? && UnreadBytes(s) == 0
    ensures ReaderEnds(s, t, Drained(s, t), 3)
  {
    LookStep(s, t);
    var s1 := Next(s, AdvanceReader(t));
    hide Inv, Enabled, Next;
    FindStep(s1, t);
    var s2 := Next(s1, AdvanceReader(t));
    BasicsOf(s2);
    LeaveAlone(s2, t);
    assert s2.readers - {t} == s.readers - {t};
    assert ReaderEnds(s1, t, Drained(s, t), 2);
  }

  lemma BasicsOf(s: Ring)
    requires Inv(s)
    ensures 0 < s.len == |s.mem| && s.delivered <= |s.sent| && UnreadBytes(s) < s.len
  {
    UnreadIsRest(s);
  }

  lemma TakeStep(s: Ring, t: nat)
    requires Inv(s) && t in s.readers && s.readers[t].ReaderCopying?
    ensures Enabled(s, AdvanceReader(t))
    ensures var (pc, s1) := (s.readers[t], Next(s, AdvanceReader(t)));
      && Inv(s1) && |pc.buf| <= pc.n && pc.r == s.readPos && s.delivered <= pc.m <= |s.sent|
      && (|pc.buf| < pc.n ==>
            && t in s1.readers && s1.readers[t].ReaderCopying? && |s1.readers[t].buf| == |pc.buf| + 1
            && s1 == s.(readers := s.readers[t := pc.(buf := s1.readers[t].buf)]))
      && (|pc.buf| == pc.n ==>
            s1 == s.(readPos := s1.readPos, readers := s.readers[t := ReaderTop], delivered := pc.m,
                     batches := s.batches + [pc.buf], cuts := s.cuts + [pc.m]))
  {
    assert s.readOwner == Some(t);
    ReaderStepKeepsInv(s, t);
  }

  /** A read of everything published, and the round after it. */
  lemma {:induction false} TakeAlone(s: Ring, t: nat) returns (buf: Bytes, readPos: nat, n: nat)
    requires Inv(s) && t in s.readers && s.readers[t].ReaderCopying? && s.readers[t].m == |s.sent|
    ensures var u := s.(readPos := readPos, readFlag := false, readOwner := None, readers := s.readers - {t},
                        delivered := |s.sent|, batches := s.batches + [buf], cuts := s.cuts + [|s.sent|]);
      ReaderEnds(s, t, u, n)
    decreases if |s.readers[t].buf| <= s.readers[t].n then s.readers[t].n - |s.readers[t].buf| else 0
  {
    hide Inv, Enabled, Next;
    TakeStep(s, t);
    var pc := s.readers[t];
    var s1 := Next(s, AdvanceReader(t));
    assert s1.readers - {t} == s.readers - {t};
    if |pc.buf| == pc.n {
      assert s1.sent[s1.delivered..] == [];
      EmptyAlone(s1, t);
      return pc.buf, s1.readPos, 4;
    }
    buf, readPos, n := TakeAlone(s1, t);
    n := n + 1;
  }

  lemma {:induction false} ReaderEndsInv(s: Ring, t: nat, u: Ring, n: nat)
    requires Inv(s) && ReaderEnds(s, t, u, n)
    ensures Inv(u)
    decreases n
  {
    hide Inv, Enabled, Next;
    if t in s.readers {
      StepKeepsInv(s, AdvanceReader(t));
      ReaderEndsInv(Next(s, AdvanceReader(t)), t, u, n - 1);
    }
  }

  /** What a read that took everything left behind follows from the invariant. */
  lemma LastBatch(s: Ring, u: Ring, buf: Bytes)
    requires Inv(s) && Inv(u) && u.sent == s.sent && u.delivered == |s.sent| && u.writePos == s.writePos
    requires u.len == s.len && u.batches == s.batches + [buf] && u.cuts == s.cuts + [|s.sent|]
    ensures u.readPos == s.writePos && s.delivered <= |s.sent| && buf == Flatten(s.sent[s.delivered..])
  {
    assert u.sent[..u.delivered] == u.sent;
    var i := |s.batches|;
    assert BatchIsWhole(u.sent, u.batches, u.cuts, i);
    assert u.batches[i] == buf && u.cuts[i] == s.delivered && u.cuts[i + 1] == |s.sent|;
    assert s.sent[s.delivered..|s.sent|] == s.sent[s.delivered..];
  }

  lemma DrainAlone(s: Ring, t: nat) returns (n: nat)
    requires Inv(s) && t in s.readers && s.readers[t].ReaderTop?
    ensures s.delivered <= |s.sent| && ReaderEnds(s, t, Drained(s, t), n)
  {
    BasicsOf(s);
    if UnreadBytes(s) == 0 {
      EmptyAlone(s, t);
      return 3;
    }
    LookStep(s, t);
    var s1 := Next(s, AdvanceReader(t));
    hide Inv, Enabled, Next;
    FindStep(s1, t);
    var s2 := Next(s1, AdvanceReader(t));
    var buf, readPos, k := TakeAlone(s2, t);
    var u := s2.(readPos := readPos, readFlag := false, readOwner := None, readers := s2.readers - {t},
                 delivered := |s2.sent|, batches := s2.batches + [buf], cuts := s2.cuts + [|s2.sent|]);
    ReaderEndsInv(s2, t, u, k);
    LastBatch(s, u, buf);
    assert s2.readers - {t} == s.readers - {t};
    assert ReaderEnds(s1, t, Drained(s, t), k + 1);
    n := k + 2;
  }

  /** The ring after a whole callback. */
  function CalledBack(s: Ring): Ring
    requires s.delivered <= |s.sent|
  {
    if s.readFlag then s.(signal := !s.zeroOnWake)
    else if UnreadBytes(s) == 0 then s.(signal := false)
    else
      s.(signal := false, readPos := s.writePos, delivered := |s.sent|,
         batches := s.batches + [Flatten(s.sent[s.delivered..])], cuts := s.cuts + [|s.sent|])
  }

  lemma WakeStep(s: Ring, t: nat)
    requires Inv(s) && Enabled(s, Wake(t))
    ensures var s1 := Next(s, Wake(t));
      && Inv(s1) && s1 == s.(signal := !s.zeroOnWake, readers := s.readers[t := ReaderWoken])
      && s1.readers - {t} == s.readers
    ensures !s.readFlag ==> s.readOwner == None
  {
    WakeKeepsInv(s, t);
  }

  /** The read lock is taken. */
  lemma TurnedAway(s: Ring, t: nat)
    requires Inv(s) && t in s.readers && s.readers[t].ReaderWoken? && s.readFlag
    ensures ReaderEnds(s, t, s.(readers := s.readers - {t}), 1)
  {
    var s1 := Next(s, AdvanceReader(t));
    assert ReaderEnds(s1, t, s1, 0);
  }

  lemma LockForReading(s: Ring, t: nat)
    requires Inv(s) && t in s.readers && s.readers[t].ReaderWoken? && !s.readFlag
    ensures Enabled(s, AdvanceReader(t))
    ensures var s1 := Next(s, AdvanceReader(t));
      && Inv(s1) && Enabled(s1, AdvanceReader(t)) && t in s1.readers
      && var s2 := Next(s1, AdvanceReader(t));
         Inv(s2) && s2 == s.(signal := s.zeroOnWake && s.signal, readFlag := true, readOwner := Some(t),
                             readers := s.readers[t := ReaderTop])
  {
    ReaderStepKeepsInv(s, t);
    var s1 := Next(s, AdvanceReader(t));
    ReaderStepKeepsInv(s1, t);
  }

  /**
   A callback that nobody interrupts comes to an end: with all that was published read out in one batch, and the
   eventfd cleared, if the read lock was free; otherwise with nothing read, and the eventfd as the wake-up left it.
   */
  lemma CallbackAlone(s: Ring, t: nat) returns (n: nat)
    requires Inv(s) && Enabled(s, Wake(t))
    ensures s.delivered <= |s.sent| && ReaderEnds(Next(s, Wake(t)), t, CalledBack(s), n)
  {
    hide Inv, Enabled, Next;
    BasicsOf(s);
    WakeStep(s, t);
    var s1 := Next(s, Wake(t));
    if s.readFlag {
      TurnedAway(s1, t);
      return 1;
    }
    LockForReading(s1, t);
    var s2 := Next(s1, AdvanceReader(t));
    var s3 := Next(s2, AdvanceReader(t));
    var k := DrainAlone(s3, t);
    assert s3.readers - {t} == s.readers;
    assert ReaderEnds(s2, t, CalledBack(s), k + 1);
    n := k + 2;
  }

  /** However a callback ends, if it found the lock free it has delivered exactly what had been published. */
  lemma CallbackDelivers(s: Ring, t: nat, u: Ring, n: nat)
    requires Inv(s) && Enabled(s, Wake(t)) && ReaderEnds(Next(s, Wake(t)), t, u, n)
    ensures s.delivered <= |s.sent| && u == CalledBack(s)
  {
    hide Inv, Enabled, Next;
    var m := CallbackAlone(s, t);
    ReaderEndsOnce(Next(s, Wake(t)), t, u, n, CalledBack(s), m);
  }

  /** A message written to a ring with room, by one thread and then read by another, arrives behind those before it. */
  lemma WrittenIsDelivered(s: Ring, t: nat, data: Bytes, r: nat, u: Ring, n: nat, v: Ring, m: nat)
    requires Inv(s) && Enabled(s, StartWrite(t, data)) && !s.writeFlag && !s.readFlag && Fits(s, data)
    requires r !in s.readers && (s.zeroOnWake ==> s.readers == map[])
    requires WriterEnds(Next(s, StartWrite(t, data)), t, u, n)
    requires Enabled(u, Wake(r)) ==> ReaderEnds(Next(u, Wake(r)), r, v, m)
    ensures Enabled(u, Wake(r))
    ensures v.sent == s.sent + [data] && v.delivered == |v.sent|
    ensures v.batches == s.batches + [Flatten(s.sent[s.delivered..]) + data]
  {
    WriteKeepsBasics(s, t, data, u, n);
    hide Inv, Next, Enabled;
    WritePublishesIff(s, t, data, u, n);
    assert u.sent[u.delivered..] == s.sent[s.delivered..] + [data];
    FlattenPush(s.sent[s.delivered..], data);
    CallbackDelivers(u, r, v, m);
  }

  lemma WriteKeepsBasics(s: Ring, t: nat, data: Bytes, u: Ring, n: nat)
    requires Inv(s) && Enabled(s, StartWrite(t, data)) && !s.writeFlag && Fits(s, data)
    requires WriterEnds(Next(s, StartWrite(t, data)), t, u, n)
    ensures Inv(u) && data != []
    ensures forall r :: r !in s.readers && (s.zeroOnWake ==> s.readers == map[]) ==> Enabled(u, Wake(r))
  {
    StepKeepsInv(s, StartWrite(t, data));
    WritePublishesIff(s, t, data, u, n);
    WriterEndsInv(Next(s, StartWrite(t, data)), t, u, n);
    BasicsOf(u);
    hide Inv;
    assert |s.sent + [data]| == |s.sent| + 1;
  }

  lemma {:induction false} WriterEndsInv(s: Ring, t: nat, u: Ring, n: nat)
    requires Inv(s) && WriterEnds(s, t, u, n)
    ensures Inv(u)
    decreases n
  {
    hide Inv, Enabled, Next;
    if t in s.writers {
      StepKeepsInv(s, AdvanceWriter(t));
      WriterEndsInv(Next(s, AdvanceWriter(t)), t, u, n - 1);
    }
  }
}
