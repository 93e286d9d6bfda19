/** What the reader of the shared-memory ring makes of the batches it reads out. */
module SharedDelivery {
  import opened Messages
  import opened Framing
  import opened SharedRing
  import opened SharedRingTheorems

  /** Messages that `ChannelLinux::Write` sends through shared memory: they carry no handles. */
  predicate HandleFree(cfg: Config, ms: seq<Message>) {
    AllAcceptable(cfg, ms) && forall i :: 0 <= i < |ms| ==> ms[i].handles == []
  }

  lemma {:induction false} NoHandles(cfg: Config, ms: seq<Message>)
    requires HandleFree(cfg, ms)
    ensures AllHandles(ms) == []
  {
    if ms != [] {
      NoHandles(cfg, ms[1..]);
    }
  }

  lemma EmptyOnlyIfNoMessages(cfg: Config, ms: seq<Message>)
    requires AllAcceptable(cfg, ms)
    ensures Flatten(Encoded(ms)) == [] <==> ms == []
  {
    if ms != [] {
      assert Encoded(ms)[0] == Encode(ms[0]) && |Encode(ms[0])| > 0;
    }
  }

  lemma FirstOfBatch(cfg: Config, ms: seq<Message>, incoming: seq<Handle>)
    requires HandleFree(cfg, ms) && ms != []
    ensures var (batch, n) := (Flatten(Encoded(ms)), |Encode(ms[0])|);
      && 0 < n <= |batch| && TryDispatch(cfg, batch, incoming) == Dispatched(ms[0], n)
      && batch[n..] == Flatten(Encoded(ms[1..])) && HandleFree(cfg, ms[1..])
  {
    hide TryDispatch, Encode;
    var (first, rest) := (Encode(ms[0]), Flatten(Encoded(ms[1..])));
    assert Encoded(ms)[0] == first && Encoded(ms)[1..] == Encoded(ms[1..]);
    assert (first + rest)[|first|..] == rest;
    DispatchEncoded(cfg, ms[0], rest, incoming);
    assert [] + incoming == incoming;
  }

  /**
   The dispatch loop of `SharedMemReadReady` on one batch.  It never checks that a header is left
   before looking at it, and takes any result but success for corruption.
   */
  method DispatchBatch(cfg: Config, batch: Bytes, incoming: seq<Handle>, ghost ms: seq<Message>)
    returns (ok: bool, dispatched: seq<Message>)
    requires HandleFree(cfg, ms) && batch == Flatten(Encoded(ms))
    ensures ok && dispatched == ms
  {
    hide TryDispatch, Encode, Flatten, Encoded;
    var dataOffset := 0;
    dispatched := [];
    ghost var left := ms;
    assert batch[0..] == batch;
    while dataOffset < |batch|
      invariant 0 <= dataOffset <= |batch| && HandleFree(cfg, left)
      invariant batch[dataOffset..] == Flatten(Encoded(left)) && dispatched + left == ms
      decreases |left|
    {
      EmptyOnlyIfNoMessages(cfg, left);
      FirstOfBatch(cfg, left, incoming);
      var d := TryDispatch(cfg, batch[dataOffset..], incoming);
      if !d.Dispatched? { return false, dispatched; }
      assert batch[dataOffset + d.size..] == batch[dataOffset..][d.size..];
      dispatched := dispatched + [d.message];
      dataOffset := dataOffset + d.size;
      left := left[1..];
    }
    EmptyOnlyIfNoMessages(cfg, left);
    assert dispatched == ms;
    return true, dispatched;
  }

  /**
   In every run of the ring over encoded handle-free messages, each batch read out is the encoding of whole
   messages, in the order published, as `DispatchBatch` requires, and parses with nothing left over.
   */
  lemma WholeMessagesThroughSharedMemory(
    cfg: Config, ms: seq<Message>, states: seq<Ring>, steps: seq<Step>, i: nat, b: nat, incoming: seq<Handle>)
    requires Run(states, steps) && i < |states| && b < |states[i].batches|
    requires HandleFree(cfg, ms) && states[i].sent == Encoded(ms)
    ensures var s := states[i];
      && |s.cuts| == |s.batches| + 1 && s.cuts[b] <= s.cuts[b + 1] <= |ms|
      && var part := ms[s.cuts[b]..s.cuts[b + 1]];
      && HandleFree(cfg, part) && s.batches[b] == Flatten(Encoded(part))
      && Parse(cfg, s.batches[b], incoming) == Parsed(ms[s.cuts[b]..s.cuts[b + 1]], [], incoming, true)
  {
    hide Next, Enabled, Parse, Encode;
    LinearizesToQueue(states, steps, i);
    var s := states[i];
    assert BatchIsWhole(s.sent, s.batches, s.cuts, b);
    var part := ms[s.cuts[b]..s.cuts[b + 1]];
    assert Encoded(part) == s.sent[s.cuts[b]..s.cuts[b + 1]];
    ParseEncoded(cfg, part);
    NoHandles(cfg, part);
    ParseSplit(cfg, Flatten(Encoded(part)), [], [], incoming);
    ParseNothing(cfg, incoming);
    assert Flatten(Encoded(part)) + [] == Flatten(Encoded(part)) && [] + incoming == incoming;
    assert part + [] == part;
  }

  lemma ParseNothing(cfg: Config, handles: seq<Handle>)
    ensures Parse(cfg, [], handles) == Parsed([], [], handles, true)
  {
  }
}
