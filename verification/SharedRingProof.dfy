/** Every step of the shared-memory ring keeps its invariant. */
module SharedRingProof {
  import opened Basics
  import opened RingMath
  import opened Messages
  import opened SharedRing

  // ---- steps that only move a thread ----

  /** The lock holder moves on inside `TryWrite`. */
  lemma MoveWriter(s: Ring, t: nat, pc: Writer)
    requires Inv(s) && s.writeOwner == Some(t) && !s.writers[t].WriterPublished?
    requires HoldsWriteLock(pc) && WriterInv(s, pc)
    ensures Inv(s.(writers := s.writers[t := pc]))
  {
    var s' := s.(writers := s.writers[t := pc]);
    if NotifierPending(s) {
      var u :| u in s.writers && (s.writers[u].WriterPublished? || s.writers[u].WriterToNotify?);
      assert u in s'.writers && s'.writers[u] == s.writers[u];
    }
    assert WakeInv(s');
  }

  /** The lock holder moves on inside `SharedMemReadReady`; it stops looking only when the ring is empty. */
  lemma MoveReader(s: Ring, t: nat, pc: Reader)
    requires Inv(s) && s.readOwner == Some(t) && HoldsReadLock(pc) && ReaderInv(s, pc)
    requires pc.ReaderDone? ==> !NonEmpty(s)
    ensures Inv(s.(readers := s.readers[t := pc]))
  {
    var s' := s.(readers := s.readers[t := pc]);
    if !pc.ReaderDone? {
      assert t in s'.readers && s'.readers[t] == pc;
      assert ReaderWillLook(s');
    }
    assert WakeInv(s');
  }

  lemma StartWriteKeepsInv(s: Ring, t: nat, data: Bytes)
    requires Inv(s) && t !in s.writers && data != []
    ensures Inv(StartWriting(s, t, data))
  {
    var s' := StartWriting(s, t, data);
    if NotifierPending(s) {
      var u :| u in s.writers && (s.writers[u].WriterPublished? || s.writers[u].WriterToNotify?);
      assert u in s'.writers && s'.writers[u] == s.writers[u];
    }
    assert WakeInv(s');
  }

  // ---- the writer ----

  lemma WriterLockedKeepsInv(s: Ring, t: nat)
    requires Inv(s) && t in s.writers && s.writers[t].WriterLocked?
    ensures Inv(NextWriter(s, t))
  {
    assert s.writeOwner == Some(t);
    MoveWriter(s, t, WriterLoadedRead(s.writers[t].data, s.readPos, End(s, s.delivered)));
  }

  lemma WriterLoadedReadKeepsInv(s: Ring, t: nat)
    requires Inv(s) && t in s.writers && s.writers[t].WriterLoadedRead?
    ensures Inv(NextWriter(s, t))
  {
    assert s.writeOwner == Some(t);
    var WriterLoadedRead(data, r, rAt) := s.writers[t];
    BytesInUse(rAt, |Flatten(s.sent)|, s.len);
    var pc := NextWriter(s, t).writers[t];
    assert WriterInv(s, pc);
    MoveWriter(s, t, pc);
  }

  /** A byte stored past the published stream touches no unread byte. */
  lemma StoreKeepsRing(mem: Bytes, stream: Bytes, start: nat, pos: nat, b: byte)
    requires 0 < |mem| && start <= |stream| <= pos < start + |mem| && RingHolds(mem, stream, start)
    ensures RingHolds(mem[Slot(pos, |mem|) := b], stream, start)
  {
    forall i: nat | start <= i < |stream|
      ensures Slot(i, |mem|) != Slot(pos, |mem|)
    {
      SlotsDistinct(i, pos, |mem|);
    }
  }

  lemma StoreKeepsCopied(mem: Bytes, start: nat, data: Bytes, k: nat)
    requires |data| < |mem| && k < |data| && Copied(mem, start, data, k)
    ensures Copied(mem[Slot(start + k, |mem|) := data[k]], start, data, k + 1)
  {
    var mem' := mem[Slot(start + k, |mem|) := data[k]];
    forall j: nat | j < k + 1
      ensures mem'[Slot(start + j, |mem|)] == data[j]
    {
      if j < k {
        SlotsDistinct(start + j, start + k, |mem|);
        assert mem[Slot(start + j, |mem|)] == data[j];
      }
    }
  }

  lemma WriterCopyKeepsInv(s: Ring, t: nat)
    requires Inv(s) && t in s.writers && s.writers[t].WriterCopying?
    requires s.writers[t].k < |s.writers[t].data|
    ensures WriterEnabled(s, s.writers[t]) && Inv(NextWriter(s, t))
  {
    hide RingHolds, Flatten, Copied, BatchInv;
    assert s.writeOwner == Some(t);
    var WriterCopying(data, w, rAt, k) := s.writers[t];
    var P := |Flatten(s.sent)|;
    WriteIndexIsSlot(P, |data|, k, s.len);
    var s1 := s.(mem := s.mem[Slot(P + k, s.len) := data[k]]);
    StoreKeepsRing(s.mem, Flatten(s.sent), End(s, s.delivered), P + k, data[k]);
    StoreKeepsCopied(s.mem, P, data, k);
    assert StreamInv(s1);
    assert WriterInv(s1, s.writers[t].(k := k + 1));
    StoredStateKeepsInv(s, s1, t);
    MoveWriter(s1, t, s.writers[t].(k := k + 1));
  }

  /** Between the store and the move of the program counter. */
  lemma StoredStateKeepsInv(s: Ring, s1: Ring, t: nat)
    requires Inv(s) && s1 == s.(mem := s1.mem) && StreamInv(s1) && s.writeOwner == Some(t)
    requires s.writers[t].WriterCopying? && WriterInv(s1, s.writers[t].(k := s.writers[t].k + 1))
    ensures Inv(s1)
  {
    assert WriterInv(s1, s.writers[t]);
    assert s.readOwner.Some? ==> ReaderInv(s1, s.readers[s.readOwner.value]);
  }

  lemma EndGrows(s: Ring, s': Ring, n: nat)
    requires s.sent <= s'.sent && n <= |s.sent|
    ensures End(s', n) == End(s, n)
  {
    assert s'.sent[..n] == s.sent[..n];
  }

  /** Publishing appends exactly the copied message to the stream. */
  lemma PublishKeepsStream(s: Ring, data: Bytes, w: nat, rAt: nat)
    requires StreamInv(s) && WriterInv(s, WriterCopying(data, w, rAt, |data|))
    ensures StreamInv(s.(writePos := (w + |data|) % s.len, sent := s.sent + [data]))
  {
    var s' := s.(writePos := (w + |data|) % s.len, sent := s.sent + [data]);
    FlattenPush(s.sent, data);
    EndGrows(s, s', s.delivered);
    var P := |Flatten(s.sent)|;
    SlotStep(P, |data|, s.len);
    var stream := Flatten(s'.sent);
    forall i: nat | End(s, s.delivered) <= i < |stream|
      ensures s.mem[Slot(i, s.len)] == stream[i]
    {
      if i >= P {
        assert stream[i] == data[i - P];
        assert s.mem[Slot(P + (i - P), s.len)] == data[i - P];
      }
    }
  }

  lemma PublishKeepsBatches(s: Ring, data: Bytes)
    requires BatchInv(s) && s.delivered <= |s.sent|
    ensures BatchInv(s.(sent := s.sent + [data]))
  {
    var s' := s.(sent := s.sent + [data]);
    forall i: nat | i < |s.batches|
      ensures BatchIsWhole(s'.sent, s.batches, s.cuts, i)
    {
      assert BatchIsWhole(s.sent, s.batches, s.cuts, i);
      assert s'.sent[s.cuts[i]..s.cuts[i + 1]] == s.sent[s.cuts[i]..s.cuts[i + 1]];
    }
  }

  lemma PublishKeepsReader(s: Ring, s': Ring, pc: Reader)
    requires StreamInv(s) && StreamInv(s') && ReaderInv(s, pc)
    requires s.sent <= s'.sent && s'.delivered == s.delivered && s'.readPos == s.readPos && s'.len == s.len
    requires Flatten(s.sent) <= Flatten(s'.sent)
    ensures ReaderInv(s', pc)
  {
    EndGrows(s, s', s.delivered);
    if pc.ReaderCopying? {
      EndGrows(s, s', pc.m);
      var C := End(s, s.delivered);
      assert Flatten(s.sent)[C..C + |pc.buf|] == Flatten(s'.sent)[C..C + |pc.buf|];
    }
  }

  lemma WriterPublishKeepsInv(s: Ring, t: nat)
    requires Inv(s) && t in s.writers && s.writers[t].WriterCopying?
    requires s.writers[t].k == |s.writers[t].data|
    ensures WriterEnabled(s, s.writers[t]) && Inv(NextWriter(s, t))
  {
    assert s.writeOwner == Some(t);
    var WriterCopying(data, w, rAt, k) := s.writers[t];
    var s' := NextWriter(s, t);
    PublishKeepsStream(s, data, w, rAt);
    FlattenPush(s.sent, data);
    PublishKeepsBatches(s, data);
    assert StreamInv(s') && BatchInv(s');
    if s.readOwner.Some? {
      PublishKeepsReader(s, s', s.readers[s.readOwner.value]);
    }
    assert t in s'.writers && s'.writers[t].WriterPublished?;
    assert NotifierPending(s');
  }

  lemma WriterLeaveKeepsInv(s: Ring, t: nat)
    requires Inv(s) && t in s.writers
    requires s.writers[t].WriterPublished? || s.writers[t].WriterFailing? || s.writers[t].WriterToNotify?
    ensures Inv(NextWriter(s, t))
  {
    var s' := NextWriter(s, t);
    if s.writers[t].WriterPublished? {
      assert t in s'.writers && s'.writers[t].WriterToNotify?;
      assert NotifierPending(s');
    } else if s.writers[t].WriterFailing? && NotifierPending(s) {
      var u :| u in s.writers && (s.writers[u].WriterPublished? || s.writers[u].WriterToNotify?);
      assert u in s'.writers && s'.writers[u] == s.writers[u];
    }
    assert WakeInv(s');
  }

  lemma WriterStepKeepsInv(s: Ring, t: nat)
    requires Inv(s) && t in s.writers
    ensures WriterEnabled(s, s.writers[t]) && Inv(NextWriter(s, t))
  {
    match s.writers[t]
    case WriterLocked(_) => WriterLockedKeepsInv(s, t);
    case WriterLoadedRead(_, _, _) => WriterLoadedReadKeepsInv(s, t);
    case WriterCopying(data, _, _, k) =>
      if k < |data| { WriterCopyKeepsInv(s, t); } else { WriterPublishKeepsInv(s, t); }
    case _ => WriterLeaveKeepsInv(s, t);
  }

  // ---- the reader ----

  lemma WakeKeepsInv(s: Ring, t: nat)
    requires Inv(s) && Enabled(s, Wake(t))
    ensures Inv(Next(s, Wake(t)))
  {
    var s' := Next(s, Wake(t));
    assert t in s'.readers && s'.readers[t].ReaderWoken?;
    assert s.zeroOnWake ==> ReaderWillLook(s');
  }

  lemma ReaderTryLockKeepsInv(s: Ring, t: nat)
    requires Inv(s) && t in s.readers && (s.readers[t].ReaderWoken? || s.readers[t].ReaderDone?)
    ensures Inv(NextReader(s, t))
  {
    var s' := NextReader(s, t);
    if s.readers[t].ReaderWoken? && !s.readFlag {
      assert t in s'.readers && s'.readers[t].ReaderLocked?;
      assert ReaderWillLook(s');
    } else if ReaderWillLook(s) {
      var u :| u in s.readers && !s.readers[u].ReaderDone? && (s.readers[u].ReaderWoken? ==> s.zeroOnWake);
      if u != t {
        assert u in s'.readers && s'.readers[u] == s.readers[u];
        assert ReaderWillLook(s');
      }
    }
    assert WakeInv(s');
  }

  lemma ReaderClearKeepsInv(s: Ring, t: nat)
    requires Inv(s) && t in s.readers && (s.readers[t].ReaderLocked? || s.readers[t].ReaderTop?)
    ensures Inv(NextReader(s, t))
  {
    var s' := NextReader(s, t);
    assert s.readOwner == Some(t);
    assert t in s'.readers && !s'.readers[t].ReaderDone? && !s'.readers[t].ReaderWoken?;
    assert ReaderWillLook(s');
  }

  lemma ReaderLoadKeepsInv(s: Ring, t: nat)
    requires Inv(s) && t in s.readers && s.readers[t].ReaderLoadedRead?
    ensures Inv(NextReader(s, t))
  {
    assert s.readOwner == Some(t);
    BytesInUse(End(s, s.delivered), |Flatten(s.sent)|, s.len);
    assert s.sent[..|s.sent|] == s.sent;
    MoveReader(s, t, NextReader(s, t).readers[t]);
  }

  /** The next byte copied out is the next byte of the stream. */
  lemma NextByteIsStream(s: Ring, pc: Reader)
    requires StreamInv(s) && ReaderInv(s, pc) && pc.ReaderCopying? && |pc.buf| < pc.n
    ensures ReaderEnabled(s, pc)
    ensures ReaderInv(s, pc.(buf := pc.buf + [s.mem[ReadIndex(s.len, pc.r, pc.w, pc.n, |pc.buf|)]]))
  {
    var C := End(s, s.delivered);
    EndBounded(s, pc.m);
    ReadIndexIsSlot(C, pc.n, |pc.buf|, s.len);
    var stream := Flatten(s.sent);
    assert s.mem[Slot(C + |pc.buf|, s.len)] == stream[C + |pc.buf|];
    assert pc.buf + [stream[C + |pc.buf|]] == stream[C..C + |pc.buf| + 1];
  }

  lemma ReaderCopyKeepsInv(s: Ring, t: nat)
    requires Inv(s) && t in s.readers && s.readers[t].ReaderCopying?
    requires |s.readers[t].buf| < s.readers[t].n
    ensures ReaderEnabled(s, s.readers[t]) && Inv(NextReader(s, t))
  {
    assert s.readOwner == Some(t);
    NextByteIsStream(s, s.readers[t]);
    MoveReader(s, t, NextReader(s, t).readers[t]);
  }

  lemma EndBounded(s: Ring, m: nat)
    requires m <= |s.sent|
    ensures End(s, m) <= |Flatten(s.sent)| && Flatten(s.sent[..m]) <= Flatten(s.sent)
  {
    assert s.sent[..|s.sent|] == s.sent;
    FlattenSplit(s.sent, m, |s.sent|);
  }

  /** A finished copy holds exactly the messages between the two ends. */
  lemma BatchIsMessages(s: Ring, pc: Reader)
    requires StreamInv(s) && ReaderInv(s, pc) && pc.ReaderCopying? && |pc.buf| == pc.n
    ensures pc.buf == Flatten(s.sent[s.delivered..pc.m])
  {
    hide Flatten, RingHolds;
    FlattenSplit(s.sent, s.delivered, pc.m);
    EndBounded(s, pc.m);
    SliceOf(Flatten(s.sent[..s.delivered]), Flatten(s.sent[s.delivered..pc.m]), Flatten(s.sent));
  }

  lemma SliceOf(a: Bytes, b: Bytes, stream: Bytes)
    requires a + b <= stream
    ensures stream[|a|..|a| + |b|] == b
  {
    assert stream[..|a| + |b|] == a + b;
  }

  lemma AdvanceKeepsStream(s: Ring, s': Ring, m: nat)
    requires StreamInv(s) && s.delivered <= m <= |s.sent|
    requires s' == s.(readPos := s'.readPos, delivered := m, readers := s'.readers, batches := s'.batches,
                      cuts := s'.cuts)
    requires s'.readPos == Slot(End(s, m), s.len)
    ensures StreamInv(s') && End(s, s.delivered) <= End(s', m)
  {
    FlattenSplit(s.sent, s.delivered, m);
    EndBounded(s, m);
  }

  /** Freeing space cannot invalidate what a writer has checked or copied. */
  lemma AdvanceKeepsWriter(s: Ring, s': Ring, pc: Writer)
    requires StreamInv(s) && StreamInv(s') && WriterInv(s, pc)
    requires s'.sent == s.sent && s'.mem == s.mem && s'.len == s.len
    requires End(s, s.delivered) <= End(s', s'.delivered)
    ensures WriterInv(s', pc)
  {
  }

  lemma ReaderPublishKeepsInv(s: Ring, t: nat)
    requires Inv(s) && t in s.readers && s.readers[t].ReaderCopying?
    requires |s.readers[t].buf| == s.readers[t].n
    ensures ReaderEnabled(s, s.readers[t]) && Inv(NextReader(s, t))
  {
    hide RingHolds, Flatten, Copied;
    assert s.readOwner == Some(t);
    var ReaderCopying(r, w, m, n, buf) := s.readers[t];
    var s' := NextReader(s, t);
    EndBounded(s, m);
    SlotStep(End(s, s.delivered), n, s.len);
    AdvanceKeepsStream(s, s', m);
    BatchIsMessages(s, s.readers[t]);
    PublishedBatch(s, m, buf);
    assert BatchInv(s');
    if s.writeOwner.Some? {
      AdvanceKeepsWriter(s, s', s.writers[s.writeOwner.value]);
    }
    assert t in s'.readers && s'.readers[t].ReaderTop?;
    assert ReaderWillLook(s');
  }

  lemma PublishedBatch(s: Ring, m: nat, buf: Bytes)
    requires BatchInv(s) && s.delivered <= m <= |s.sent| && buf == Flatten(s.sent[s.delivered..m])
    ensures BatchInv(s.(delivered := m, batches := s.batches + [buf], cuts := s.cuts + [m]))
  {
    var s' := s.(delivered := m, batches := s.batches + [buf], cuts := s.cuts + [m]);
    forall i: nat | i < |s'.batches|
      ensures BatchIsWhole(s'.sent, s'.batches, s'.cuts, i)
    {
      if i < |s.batches| {
        assert BatchIsWhole(s.sent, s.batches, s.cuts, i);
      }
    }
  }

  lemma ReaderStepKeepsInv(s: Ring, t: nat)
    requires Inv(s) && t in s.readers
    ensures ReaderEnabled(s, s.readers[t]) && Inv(NextReader(s, t))
  {
    match s.readers[t]
    case ReaderLocked => ReaderClearKeepsInv(s, t);
    case ReaderTop => ReaderClearKeepsInv(s, t);
    case ReaderLoadedRead(_) => ReaderLoadKeepsInv(s, t);
    case ReaderCopying(_, _, _, n, buf) =>
      if |buf| < n { ReaderCopyKeepsInv(s, t); } else { ReaderPublishKeepsInv(s, t); }
    case _ => ReaderTryLockKeepsInv(s, t);
  }

  lemma StepKeepsInv(s: Ring, step: Step)
    requires Inv(s) && Enabled(s, step)
    ensures Inv(Next(s, step))
  {
    match step
    case StartWrite(t, data) => StartWriteKeepsInv(s, t, data);
    case AdvanceWriter(t) => WriterStepKeepsInv(s, t);
    case Wake(t) => WakeKeepsInv(s, t);
    case AdvanceReader(t) => ReaderStepKeepsInv(s, t);
  }
}
