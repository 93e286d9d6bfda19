/**
 The Linux shared-memory ring, `ChannelLinux::SharedBuffer`, with its reader loop and its eventfd, as
 a machine of small steps.  Any number of writer threads and of reader callbacks run interleaved: a
 step is one atomic access, one copied byte, or one change of the eventfd.  Memory is sequentially
 consistent.
 */
module SharedRing {
  import opened Basics
  import opened RingMath
  import opened Messages

  /** Where a thread stands in `TryWrite` and the `Notify` that follows it; `rAt` is the stream position behind `r`. */
  datatype Writer =
    | WriterLocked(data: Bytes)
    | WriterLoadedRead(data: Bytes, r: nat, rAt: nat)
    | WriterCopying(data: Bytes, w: nat, rAt: nat, k: nat)
    | WriterPublished
    | WriterFailing
    | WriterCorrupt
    | WriterToNotify

  /** Where a callback stands in `SharedMemReadReady`; `m` is the number of messages published when `w` was loaded. */
  datatype Reader =
    | ReaderWoken
    | ReaderLocked
    | ReaderTop
    | ReaderLoadedRead(r: nat)
    | ReaderCopying(r: nat, w: nat, m: nat, n: nat, buf: Bytes)
    | ReaderDone
    | ReaderCorrupt

  datatype Ring = Ring(
    len: nat,                        // usable_len()
    mem: Bytes,
    writeFlag: bool, writePos: nat,
    readFlag: bool, readPos: nat,
    zeroOnWake: bool,                // the eventfd was made with EFD_ZERO_ON_WAKE
    signal: bool,                    // the eventfd is non-zero
    writers: map<nat, Writer>,       // threads inside a write, by thread
    readers: map<nat, Reader>,
    // history, read by no step
    writeOwner: Option<nat>,
    readOwner: Option<nat>,
    sent: seq<Bytes>,                // messages published, in order
    delivered: nat,                  // how many of them have been read out
    batches: seq<Bytes>,             // what each successful TryReadLocked returned
    cuts: seq<nat>)                  // batch i starts at message cuts[i]

  predicate Init(s: Ring) {
    && 0 < s.len == |s.mem|
    && s == Ring(s.len, s.mem, false, 0, false, 0, s.zeroOnWake, false, map[], map[], None, None, [], 0, [], [0])
  }

  // ---- the pure parts of the code ----

  function NumBytesInUse(len: nat, r: nat, w: nat): nat
    requires r < len && w < len
  {
    if r <= w then w - r else w + (len - r)
  }

  /** Where byte `k` of a write of `n` bytes goes: one copy, or two when it reaches the end. */
  function WriteIndex(len: nat, w: nat, n: nat, k: nat): int
    requires w < len
  {
    if len - w > n then w + k
    else if k < len - w then w + k else k - (len - w)
  }

  /** Where byte `k` of a read of `n` bytes comes from. */
  function ReadIndex(len: nat, r: nat, w: nat, n: nat, k: nat): int
    requires r < len
  {
    if r < w then r + k
    else
      var first := if len - r <= n then len - r else n;
      if k < first then r + k else k - first
  }

  // ---- steps ----

  datatype Step =
    | StartWrite(t: nat, data: Bytes)   // the test_and_set of a TryWrite
    | AdvanceWriter(t: nat)
    | Wake(t: nat)                      // the event loop calls back
    | AdvanceReader(t: nat)

  predicate Enabled(s: Ring, step: Step) {
    && 0 < s.len == |s.mem|
    && match step
      case StartWrite(t, data) => t !in s.writers && data != []
      case AdvanceWriter(t) => t in s.writers && WriterEnabled(s, s.writers[t])
      // With EFD_ZERO_ON_WAKE the callback runs on the one I/O thread.
      case Wake(t) => t !in s.readers && s.signal && (s.zeroOnWake ==> s.readers == map[])
      case AdvanceReader(t) => t in s.readers && ReaderEnabled(s, s.readers[t])
  }

  predicate WriterEnabled(s: Ring, pc: Writer) {
    match pc
    case WriterCopying(data, w, _, k) =>
      w < s.len && k <= |data| && (k < |data| ==> 0 <= WriteIndex(s.len, w, |data|, k) < s.len)
    case WriterCorrupt => false
    case _ => true
  }

  predicate ReaderEnabled(s: Ring, pc: Reader) {
    match pc
    case ReaderCopying(r, w, _, n, buf) =>
      r < s.len && |buf| <= n && (|buf| < n ==> 0 <= ReadIndex(s.len, r, w, n, |buf|) < s.len)
    case ReaderCorrupt => false
    case _ => true
  }

  function StartWriting(s: Ring, t: nat, data: Bytes): Ring {
    if |data| > s.len || s.writeFlag then s
    else s.(writeFlag := true, writeOwner := Some(t), writers := s.writers[t := WriterLocked(data)])
  }

  function NextWriter(s: Ring, t: nat): Ring
    requires 0 < s.len == |s.mem| && t in s.writers && WriterEnabled(s, s.writers[t])
  {
    match s.writers[t]
    case WriterLocked(data) =>
      s.(writers := s.writers[t := WriterLoadedRead(data, s.readPos, |Flatten(s.sent[..Min(s.delivered, |s.sent|)])|)])
    case WriterLoadedRead(data, r, rAt) =>
      var w := s.writePos;
      if w >= s.len || r >= s.len then s.(writers := s.writers[t := WriterCorrupt])
      else if s.len - NumBytesInUse(s.len, r, w) <= |data| then s.(writers := s.writers[t := WriterFailing])
      else s.(writers := s.writers[t := WriterCopying(data, w, rAt, 0)])
    case WriterCopying(data, w, rAt, k) =>
      if k < |data| then
        s.(mem := s.mem[WriteIndex(s.len, w, |data|, k) := data[k]],
           writers := s.writers[t := WriterCopying(data, w, rAt, k + 1)])
      else
        s.(writePos := (w + |data|) % s.len, sent := s.sent + [data],
           writers := s.writers[t := if s.writePos == w then WriterPublished else WriterCorrupt])
    case WriterPublished =>
      s.(writeFlag := false, writeOwner := None, writers := s.writers[t := WriterToNotify])
    case WriterFailing =>
      s.(writeFlag := false, writeOwner := None, writers := s.writers - {t})
    case WriterToNotify => s.(signal := true, writers := s.writers - {t})
    case WriterCorrupt => s
  }

  function NextReader(s: Ring, t: nat): Ring
    requires 0 < s.len == |s.mem| && t in s.readers && ReaderEnabled(s, s.readers[t])
  {
    match s.readers[t]
    case ReaderWoken =>
      if s.readFlag then s.(readers := s.readers - {t})
      else s.(readFlag := true, readOwner := Some(t), readers := s.readers[t := ReaderLocked])
    case ReaderLocked => s.(signal := s.zeroOnWake && s.signal, readers := s.readers[t := ReaderTop])
    case ReaderTop => s.(readers := s.readers[t := ReaderLoadedRead(s.readPos)])
    case ReaderLoadedRead(r) =>
      var w := s.writePos;
      if w >= s.len || r >= s.len then s.(readers := s.readers[t := ReaderCorrupt])
      else
        // read_buf_ has size usable_len()
        var n := Min(NumBytesInUse(s.len, r, w), s.len);
        if n == 0 then s.(readers := s.readers[t := ReaderDone])
        else s.(readers := s.readers[t := ReaderCopying(r, w, |s.sent|, n, [])])
    case ReaderCopying(r, w, m, n, buf) =>
      if |buf| < n then
        s.(readers := s.readers[t := ReaderCopying(r, w, m, n, buf + [s.mem[ReadIndex(s.len, r, w, n, |buf|)]])])
      else if s.readPos == r then
        s.(readPos := (r + n) % s.len, readers := s.readers[t := ReaderTop],
           delivered := m, batches := s.batches + [buf], cuts := s.cuts + [m])
      else s.(readPos := (r + n) % s.len, readers := s.readers[t := ReaderCorrupt])
    case ReaderDone => s.(readFlag := false, readOwner := None, readers := s.readers - {t})
    case ReaderCorrupt => s
  }

  function Next(s: Ring, step: Step): Ring
    requires Enabled(s, step)
  {
    match step
    case StartWrite(t, data) => StartWriting(s, t, data)
    case AdvanceWriter(t) => NextWriter(s, t)
    case Wake(t) => s.(signal := !s.zeroOnWake, readers := s.readers[t := ReaderWoken])
    case AdvanceReader(t) => NextReader(s, t)
  }

  // ---- the invariant ----

  /** Stream position of the end of the first `n` messages. */
  function End(s: Ring, n: nat): nat
    requires n <= |s.sent|
  {
    |Flatten(s.sent[..n])|
  }

  /** Positions follow the streams, the ring is never full, and unread bytes are in their slots. */
  predicate StreamInv(s: Ring) {
    && 0 < s.len == |s.mem|
    && s.delivered <= |s.sent|
    && End(s, s.delivered) <= |Flatten(s.sent)| < End(s, s.delivered) + s.len
    && s.writePos == Slot(|Flatten(s.sent)|, s.len)
    && s.readPos == Slot(End(s, s.delivered), s.len)
    && RingHolds(s.mem, Flatten(s.sent), End(s, s.delivered))
  }

  predicate HoldsWriteLock(pc: Writer) { !pc.WriterToNotify? }

  predicate HoldsReadLock(pc: Reader) { !pc.ReaderWoken? }

  /** Each flag is set exactly while one thread is inside the section it guards. */
  predicate LockInv(s: Ring) {
    && s.writeFlag == s.writeOwner.Some? && s.readFlag == s.readOwner.Some?
    && (s.writeOwner.Some? ==> s.writeOwner.value in s.writers)
    && (s.readOwner.Some? ==> s.readOwner.value in s.readers)
    && (forall t {:trigger s.writers[t]} :: t in s.writers ==>
        (HoldsWriteLock(s.writers[t]) <==> s.writeOwner == Some(t)))
    && (forall t {:trigger s.readers[t]} :: t in s.readers ==>
        (HoldsReadLock(s.readers[t]) <==> s.readOwner == Some(t)))
    && (s.zeroOnWake ==> forall t, u :: t in s.readers && u in s.readers ==> t == u)
  }

  /** What the thread inside `TryWrite` knows. */
  predicate WriterInv(s: Ring, pc: Writer)
    requires StreamInv(s)
  {
    var P := |Flatten(s.sent)|;
    match pc
    case WriterLocked(data) => data != []
    case WriterLoadedRead(data, r, rAt) =>
      data != [] && r == Slot(rAt, s.len) && rAt <= End(s, s.delivered) && P < rAt + s.len
    case WriterCopying(data, w, rAt, k) =>
      && data != [] && w == Slot(P, s.len) && rAt <= End(s, s.delivered) && P + |data| < rAt + s.len
      && k <= |data| && Copied(s.mem, P, data, k)
    case WriterCorrupt => false
    case _ => true
  }

  predicate Copied(mem: Bytes, start: nat, data: Bytes, k: nat)
    requires 0 < |mem| && k <= |data|
  {
    forall j: nat {:trigger data[j]} :: j < k ==> mem[Slot(start + j, |mem|)] == data[j]
  }

  /** What the callback inside the read lock knows. */
  predicate ReaderInv(s: Ring, pc: Reader)
    requires StreamInv(s)
  {
    var C := End(s, s.delivered);
    match pc
    case ReaderLoadedRead(r) => r == s.readPos
    case ReaderCopying(r, w, m, n, buf) =>
      && r == s.readPos && s.delivered <= m <= |s.sent|
      && w == Slot(End(s, m), s.len) && C + n == End(s, m) && n > 0
      && |buf| <= n && C + |buf| <= |Flatten(s.sent)| && buf == Flatten(s.sent)[C..C + |buf|]
    case ReaderCorrupt => false
    case _ => true
  }

  /** Every batch read out is a run of whole messages, and the runs follow one another. */
  predicate BatchInv(s: Ring) { BatchesMatch(s.sent, s.delivered, s.batches, s.cuts) }

  predicate BatchesMatch(sent: seq<Bytes>, delivered: nat, batches: seq<Bytes>, cuts: seq<nat>) {
    && |cuts| == |batches| + 1 && cuts[0] == 0 && cuts[|batches|] == delivered
    && forall i: nat :: i < |batches| ==> BatchIsWhole(sent, batches, cuts, i)
  }

  predicate BatchIsWhole(sent: seq<Bytes>, batches: seq<Bytes>, cuts: seq<nat>, i: nat)
    requires i < |batches| && |cuts| == |batches| + 1
  {
    cuts[i] <= cuts[i + 1] <= |sent| && batches[i] == Flatten(sent[cuts[i]..cuts[i + 1]])
  }

  predicate NotifierPending(s: Ring) {
    exists t :: t in s.writers && (s.writers[t].WriterPublished? || s.writers[t].WriterToNotify?)
  }

  /** A callback is on its way to look at `write_pos` again. */
  predicate ReaderWillLook(s: Ring) {
    exists t :: t in s.readers && !s.readers[t].ReaderDone? && (s.readers[t].ReaderWoken? ==> s.zeroOnWake)
  }

  predicate NonEmpty(s: Ring)
    requires StreamInv(s)
  {
    End(s, s.delivered) < |Flatten(s.sent)|
  }

  predicate WakeInv(s: Ring)
    requires StreamInv(s)
  {
    NonEmpty(s) ==> s.signal || NotifierPending(s) || ReaderWillLook(s)
  }

  predicate Inv(s: Ring) {
    && StreamInv(s) && LockInv(s) && BatchInv(s) && WakeInv(s)
    && (s.writeOwner.Some? ==> WriterInv(s, s.writers[s.writeOwner.value]))
    && (s.readOwner.Some? ==> ReaderInv(s, s.readers[s.readOwner.value]))
  }

  // ---- arithmetic of the two copies ----

  /** The bytes-in-use formula counts the stream positions between the two ends. */
  lemma BytesInUse(C: nat, P: nat, len: nat)
    requires 0 < len && C <= P < C + len
    ensures NumBytesInUse(len, Slot(C, len), Slot(P, len)) == P - C
  {
    SlotAdvance(C, P - C, len);
  }

  lemma WriteIndexIsSlot(P: nat, n: nat, k: nat, len: nat)
    requires 0 < len && k < n < len
    ensures WriteIndex(len, Slot(P, len), n, k) == Slot(P + k, len)
  {
    SlotAdvance(P, k, len);
  }

  lemma ReadIndexIsSlot(C: nat, n: nat, k: nat, len: nat)
    requires 0 < len && k < n < len
    ensures ReadIndex(len, Slot(C, len), Slot(C + n, len), n, k) == Slot(C + k, len)
  {
    SlotAdvance(C, k, len);
    SlotAdvance(C, n, len);
  }
}
