/** What the shared-memory ring guarantees over whole runs. */
module SharedRingTheorems {
  import opened Basics
  import opened RingMath
  import opened Messages
  import opened SharedRing
  import opened SharedRingProof

  predicate Run(states: seq<Ring>, steps: seq<Step>) {
    && |states| == |steps| + 1 && Init(states[0])
    && forall i {:trigger steps[i]} :: 0 <= i < |steps| ==>
         Enabled(states[i], steps[i]) && states[i + 1] == Next(states[i], steps[i])
  }

  lemma InitInv(s: Ring)
    requires Init(s)
    ensures Inv(s)
  {
  }

  lemma {:induction false} RunKeepsInv(states: seq<Ring>, steps: seq<Step>, i: nat)
    requires Run(states, steps) && i < |states|
    ensures Inv(states[i])
  {
    hide Next, Enabled, Inv;
    if i == 0 {
      InitInv(states[0]);
    } else {
      RunKeepsInv(states, steps, i - 1);
      assert Enabled(states[i - 1], steps[i - 1]);
      StepKeepsInv(states[i - 1], steps[i - 1]);
    }
  }

  lemma {:induction false} BatchesConcatenate(s: Ring, j: nat)
    requires BatchInv(s) && s.delivered <= |s.sent| && j <= |s.batches|
    ensures s.cuts[j] <= |s.sent| && Flatten(s.batches[..j]) == Flatten(s.sent[..s.cuts[j]])
  {
    if j > 0 {
      BatchesConcatenate(s, j - 1);
      assert BatchIsWhole(s.sent, s.batches, s.cuts, j - 1);
      assert s.batches[..j] == s.batches[..j - 1] + [s.batches[j - 1]];
      FlattenPush(s.batches[..j - 1], s.batches[j - 1]);
      FlattenSplit(s.sent, s.cuts[j - 1], s.cuts[j]);
    }
  }

  /**
   In every run the bytes read out so far are the published messages in order, cut at message
   boundaries: each successful read returned whole messages.
   */
  lemma LinearizesToQueue(states: seq<Ring>, steps: seq<Step>, i: nat)
    requires Run(states, steps) && i < |states|
    ensures var s := states[i];
      && s.delivered <= |s.sent|
      && Flatten(s.batches) == Flatten(s.sent[..s.delivered])
      && BatchesMatch(s.sent, s.delivered, s.batches, s.cuts)
  {
    hide Next, Enabled;
    RunKeepsInv(states, steps, i);
    var s := states[i];
    BatchesConcatenate(s, |s.batches|);
    assert s.batches[..|s.batches|] == s.batches;
  }

  /** The ring never fills up, so equal positions mean an empty ring. */
  lemma NeverFull(states: seq<Ring>, steps: seq<Step>, i: nat)
    requires Run(states, steps) && i < |states|
    ensures var s := states[i];
      && s.readPos < s.len && s.writePos < s.len && s.delivered <= |s.sent|
      && NumBytesInUse(s.len, s.readPos, s.writePos) == |Flatten(s.sent[s.delivered..])| < s.len
      && (s.readPos == s.writePos <==> |Flatten(s.sent[s.delivered..])| == 0)
  {
    hide Next, Enabled;
    RunKeepsInv(states, steps, i);
    var s := states[i];
    BytesInUse(End(s, s.delivered), |Flatten(s.sent)|, s.len);
    FlattenSplit(s.sent, s.delivered, |s.sent|);
    assert s.sent[..|s.sent|] == s.sent && s.sent[s.delivered..|s.sent|] == s.sent[s.delivered..];
  }

  /** No thread ever finds the control structure corrupt, and none that is inside is ever stuck. */
  lemma NeverCorrupt(states: seq<Ring>, steps: seq<Step>, i: nat, t: nat)
    requires Run(states, steps) && i < |states|
    ensures t in states[i].writers ==>
              !states[i].writers[t].WriterCorrupt? && Enabled(states[i], AdvanceWriter(t))
    ensures t in states[i].readers ==>
              !states[i].readers[t].ReaderCorrupt? && Enabled(states[i], AdvanceReader(t))
  {
    hide Next;
    RunKeepsInv(states, steps, i);
    var s := states[i];
    if t in s.writers {
      WriterStepKeepsInv(s, t);
    }
    if t in s.readers {
      ReaderStepKeepsInv(s, t);
    }
  }

  /** At most one thread is inside `TryWrite` and at most one inside the read lock. */
  lemma MutualExclusion(states: seq<Ring>, steps: seq<Step>, i: nat, t: nat, u: nat)
    requires Run(states, steps) && i < |states|
    requires t != u
    ensures t in states[i].writers && u in states[i].writers ==>
              !(HoldsWriteLock(states[i].writers[t]) && HoldsWriteLock(states[i].writers[u]))
    ensures t in states[i].readers && u in states[i].readers ==>
              !(HoldsReadLock(states[i].readers[t]) && HoldsReadLock(states[i].readers[u]))
  {
    hide Next, Enabled;
    RunKeepsInv(states, steps, i);
  }

  /** No byte a writer is copying to lies in the unread part of the ring, which is all a reader copies from. */
  lemma WriteRegionDisjoint(states: seq<Ring>, steps: seq<Step>, i: nat, t: nat, k: nat, pos: nat)
    requires Run(states, steps) && i < |states| && t in states[i].writers && states[i].writers[t].WriterCopying?
    requires states[i].delivered <= |states[i].sent|
    requires k < |states[i].writers[t].data| && End(states[i], states[i].delivered) <= pos < |Flatten(states[i].sent)|
    ensures var s := states[i]; var pc := s.writers[t];
      && 0 < s.len && pc.w < s.len && WriteIndex(s.len, pc.w, |pc.data|, k) != Slot(pos, s.len)
  {
    hide Next, Enabled;
    RunKeepsInv(states, steps, i);
    var s := states[i];
    assert s.writeOwner == Some(t);
    var P := |Flatten(s.sent)|;
    WriteIndexIsSlot(P, |s.writers[t].data|, k, s.len);
    SlotsDistinct(pos, P + k, s.len);
  }

  /**
   If the ring is not empty and no callback holds the read lock, the eventfd is set or a writer that
   has published is about to set it.
   */
  lemma NoLostWakeup(states: seq<Ring>, steps: seq<Step>, i: nat)
    requires Run(states, steps) && i < |states|
    requires !states[i].readFlag && (states[i].zeroOnWake ==> states[i].readers == map[])
    ensures states[i].readPos != states[i].writePos ==> states[i].signal || NotifierPending(states[i])
  {
    hide Next, Enabled;
    RunKeepsInv(states, steps, i);
  }

  /**
   A write that holds the lock goes through exactly when the message and the bytes unread at the time
   the read position was loaded leave at least one byte free; otherwise it falls back to the socket.
   */
  lemma WriteAdmittedIff(states: seq<Ring>, steps: seq<Step>, i: nat, t: nat)
    requires Run(states, steps) && i < |states| && t in states[i].writers && states[i].writers[t].WriterLoadedRead?
    ensures var s := states[i];
      var pc := s.writers[t];
      var unread := |Flatten(s.sent)| - pc.rAt;
      && 0 < s.len == |s.mem| && 0 <= unread
      && NextWriter(s, t).writers[t] ==
           if unread + |pc.data| < s.len then WriterCopying(pc.data, s.writePos, pc.rAt, 0) else WriterFailing
  {
    hide Next, Enabled;
    RunKeepsInv(states, steps, i);
    var s := states[i];
    assert s.writeOwner == Some(t);
    FlattenSplit(s.sent, s.delivered, |s.sent|);
    BytesInUse(s.writers[t].rAt, |Flatten(s.sent)|, s.len);
  }

  /** The drain loop ends exactly when nothing published is unread; otherwise it takes all of it. */
  lemma DrainTakesEverything(states: seq<Ring>, steps: seq<Step>, i: nat, t: nat)
    requires Run(states, steps) && i < |states| && t in states[i].readers && states[i].readers[t].ReaderLoadedRead?
    ensures var s := states[i];
      && 0 < s.len == |s.mem| && s.delivered <= |s.sent|
      && var unread := |Flatten(s.sent[s.delivered..])|;
         NextReader(s, t).readers[t] ==
           if unread == 0 then ReaderDone else ReaderCopying(s.readPos, s.writePos, |s.sent|, unread, [])
  {
    hide Next, Enabled;
    RunKeepsInv(states, steps, i);
    NeverFull(states, steps, i);
    assert states[i].readOwner == Some(t);
  }
}
