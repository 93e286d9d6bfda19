/**
 Sender, wire and receiver together: what the write queue puts on a socket and what the framing
 parser makes of it, for every pattern of short writes, blocking and chunked reads.
 */
module Delivery {
  import opened Messages
  import opened Framing
  import opened Receive
  import opened WriteQueue
  import opened PosixWrite

  /** Messages the sender may hand to a channel whose receiver is configured by `cfg`. */
  predicate Transferable(cfg: Config, ms: seq<Message>) {
    AllAcceptable(cfg, ms) && forall i :: 0 <= i < |ms| ==> |ms[i].handles| <= MAX_SENDMSG_HANDLES
  }

  function ToOutgoing(m: Message): Outgoing
    requires Sendable(m)
  {
    Outgoing(Encode(m), m.handles)
  }

  function AllOutgoing(cfg: Config, ms: seq<Message>): (r: seq<Outgoing>)
    requires Transferable(cfg, ms)
    ensures |r| == |ms| && AllValid(r)
  {
    seq(|ms|, i requires 0 <= i < |ms| => ToOutgoing(ms[i]))
  }

  /** The total of a list of messages is its encoding and its handles. */
  lemma {:induction false} TotalIsEncoding(cfg: Config, ms: seq<Message>)
    requires Transferable(cfg, ms)
    ensures var q := FreshQueue(AllOutgoing(cfg, ms));
      ValidQueue(q) && Tails(q) == Flatten(Encoded(ms)) && TailHandles(q) == AllHandles(ms)
  {
    hide Encode;
    if ms != [] {
      var q := FreshQueue(AllOutgoing(cfg, ms));
      TotalIsEncoding(cfg, ms[1..]);
      assert q[1..] == FreshQueue(AllOutgoing(cfg, ms[1..]));
      assert Encoded(ms)[1..] == Encoded(ms[1..]);
    }
  }

  /**
   At any moment, even after a write error, whatever part of the wire has arrived and however it was
   chunked, the receiver has dispatched a prefix of the messages sent, each with its own handles.
   */
  lemma ReceiverSeesPrefix(
    cfg: Config, ms: seq<Message>, wire: Bytes, log: seq<SentHandle>, chunks: seq<(Bytes, seq<Handle>)>)
    requires Transferable(cfg, ms) && Prefixed(TotalOf(AllOutgoing(cfg, ms)), wire, log)
    requires AllBytes(chunks) <= wire && AllFds(chunks) <= Handles(log)
    ensures var r := ReceiveAll(cfg, chunks); r.ok && r.dispatched <= ms
  {
    TotalIsEncoding(cfg, ms);
    ChunkingIndependence(cfg, chunks);
    PrefixDelivered(cfg, ms, AllBytes(chunks), AllFds(chunks));
  }

  // ---- nothing complete is held back ----

  /** The handle of an unsent message belongs to bytes that are not all on the wire yet. */
  lemma {:induction false} UnsentSpansEndLater(q: seq<View>, at: int, i: nat)
    requires ValidQueue(q) && i < |TailSpans(q, at)|
    ensures TailSpans(q, at)[i].hi > at
    decreases q
  {
    if q != [] && i >= |q[0].UnsentHandles()| {
      UnsentSpansEndLater(q[1..], at + |q[0].Tail()|, i - |q[0].UnsentHandles()|);
    }
  }

  /** The handles of the first messages belong to the bytes of the first messages. */
  lemma {:induction false} SpansEndWithin(q: seq<View>, at: int, i: nat)
    requires ValidQueue(q) && (forall k :: 0 <= k < |q| ==> q[k].offset == 0) && i < |TailSpans(q, at)|
    ensures TailSpans(q, at)[i].hi <= at + |Tails(q)|
    decreases q
  {
    if q != [] && i >= |q[0].UnsentHandles()| {
      SpansEndWithin(q[1..], at + |q[0].Tail()|, i - |q[0].UnsentHandles()|);
    }
  }

  lemma {:induction false} OneSpanPerHandle(q: seq<View>, at: int)
    requires ValidQueue(q)
    ensures |TailSpans(q, at)| == |TailHandles(q)|
    decreases q
  {
    if q != [] {
      OneSpanPerHandle(q[1..], at + |q[0].Tail()|);
    }
  }

  lemma QueueSplits(cfg: Config, ms: seq<Message>, j: nat)
    requires Transferable(cfg, ms) && j <= |ms|
    ensures Transferable(cfg, ms[..j]) && Transferable(cfg, ms[j..])
    ensures FreshQueue(AllOutgoing(cfg, ms))
         == FreshQueue(AllOutgoing(cfg, ms[..j])) + FreshQueue(AllOutgoing(cfg, ms[j..]))
  {
    hide Acceptable, Encode;
  }

  /** Splitting the messages splits bytes, handles and spans. */
  lemma TotalSplits(cfg: Config, ms: seq<Message>, j: nat)
    requires Transferable(cfg, ms) && j <= |ms|
    ensures Transferable(cfg, ms[..j]) && Transferable(cfg, ms[j..])
    ensures Flatten(Encoded(ms)) == Flatten(Encoded(ms[..j])) + Flatten(Encoded(ms[j..]))
    ensures AllHandles(ms) == AllHandles(ms[..j]) + AllHandles(ms[j..])
    ensures TotalOf(AllOutgoing(cfg, ms[..j])).spans <= TotalOf(AllOutgoing(cfg, ms)).spans
  {
    hide Tails, TailHandles, TailSpans, Flatten, AllHandles, Encode, Acceptable, FreshQueue, AllOutgoing, Encoded;
    QueueSplits(cfg, ms, j);
    TotalIsEncoding(cfg, ms);
    TotalIsEncoding(cfg, ms[..j]);
    TotalIsEncoding(cfg, ms[j..]);
    var (a, b) := (FreshQueue(AllOutgoing(cfg, ms[..j])), FreshQueue(AllOutgoing(cfg, ms[j..])));
    TailsAppend(a, b);
    SpansAppend(a, b, 0);
  }

  /** Once the bytes of the first `j` messages have arrived, so have all their handles. */
  lemma HandlesArriveInTime(
    cfg: Config, ms: seq<Message>, q: seq<View>, wire: Bytes, log: seq<SentHandle>, k: nat, c: nat, j: nat)
    requires Transferable(cfg, ms) && Conserved(TotalOf(AllOutgoing(cfg, ms)), q, wire, log)
    requires k <= |wire| && c <= |log| && forall i :: c <= i < |log| ==> k <= log[i].pos
    requires j <= |ms| && |Flatten(Encoded(ms[..j]))| <= k
    ensures |AllHandles(ms[..j])| <= c
  {
    TotalSplits(cfg, ms, j);
    var first := FreshQueue(AllOutgoing(cfg, ms[..j]));
    TotalIsEncoding(cfg, ms[..j]);
    OneSpanPerHandle(first, 0);
    var spans := TotalOf(AllOutgoing(cfg, ms)).spans;
    if c < |AllHandles(ms[..j])| {
      SpansEndWithin(first, 0, c);
      assert spans[c].hi <= k;
      if c >= |log| {
        assert spans[c] == spans[|log|..][c - |log|];
        UnsentSpansEndLater(q, |wire|, c - |log|);
      }
      assert false;
    }
  }

  /** A proper beginning of an encoded message dispatches nothing. */
  lemma PartialDispatchesNothing(cfg: Config, m: Message, n: nat, handles: seq<Handle>)
    requires Acceptable(cfg, m) && n < |Encode(m)|
    ensures Parse(cfg, Encode(m)[..n], handles) == Parsed([], Encode(m)[..n], handles, true)
  {
    var part := Encode(m)[..n];
    if n >= 8 {
      FieldsOfEncoding(m, []);
      assert Encode(m) + [] == Encode(m);
      assert Field32(part, 0) == Field32(Encode(m), 0);
    }
  }

  /** Behind the first `j` messages, `n` more bytes are the beginning of the next one. */
  lemma NextBytes(cfg: Config, ms: seq<Message>, j: nat, n: nat)
    requires Transferable(cfg, ms) && j <= |ms| && n <= |Flatten(Encoded(ms[j..]))|
    requires j < |ms| ==> n < |Encode(ms[j])|
    ensures Flatten(Encoded(ms[j..]))[..n] == if j < |ms| then Encode(ms[j])[..n] else []
  {
    hide Encode;
    if j < |ms| {
      assert Encoded(ms[j..])[0] == Encode(ms[j]);
    } else {
      assert ms[j..] == [];
    }
  }

  /**
   If the receiver has the first `k` bytes of the wire and every handle sent beside them, it has
   dispatched exactly the messages that lie within those `k` bytes: none is held back, none is cut.
   */
  lemma ExactlyCompleteMessagesDelivered(
    cfg: Config, ms: seq<Message>, q: seq<View>, wire: Bytes, log: seq<SentHandle>, k: nat, c: nat, j: nat)
    requires Transferable(cfg, ms) && Conserved(TotalOf(AllOutgoing(cfg, ms)), q, wire, log)
    requires k <= |wire| && c <= |log| && forall i :: c <= i < |log| ==> k <= log[i].pos
    requires j <= |ms| && |Flatten(Encoded(ms[..j]))| <= k
    requires j < |ms| ==> k < |Flatten(Encoded(ms[..j]))| + |Encode(ms[j])|
    ensures var p := Parse(cfg, wire[..k], Handles(log[..c]));
      p.ok && p.messages == ms[..j]
  {
    hide Parse, Encode, TotalOf, Conserved;
    HandlesArriveInTime(cfg, ms, q, wire, log, k, c, j);
    TotalSplits(cfg, ms, j);
    var (done, doneHandles) := (Flatten(Encoded(ms[..j])), AllHandles(ms[..j]));
    var (next, later) := (wire[|done|..k], Handles(log[..c])[|doneHandles|..]);
    ReceivedLayout(cfg, ms, q, wire, log, k, c, j);
    NextBytes(cfg, ms, j, |next|);
    NothingMore(cfg, ms, j, next, later);
    ParseAll(cfg, ms[..j], next, later);
  }

  /** What has arrived is the encoding of the first `j` messages and the start of the rest. */
  lemma ReceivedLayout(
    cfg: Config, ms: seq<Message>, q: seq<View>, wire: Bytes, log: seq<SentHandle>, k: nat, c: nat, j: nat)
    requires Transferable(cfg, ms) && Conserved(TotalOf(AllOutgoing(cfg, ms)), q, wire, log)
    requires k <= |wire| && c <= |log| && j <= |ms|
    requires |Flatten(Encoded(ms[..j]))| <= k && |AllHandles(ms[..j])| <= c
    ensures var (done, doneHandles) := (Flatten(Encoded(ms[..j])), AllHandles(ms[..j]));
      var next := wire[|done|..k];
      && wire[..k] == done + next
      && Handles(log[..c]) == doneHandles + Handles(log[..c])[|doneHandles|..]
      && |next| <= |Flatten(Encoded(ms[j..]))| && next == Flatten(Encoded(ms[j..]))[..|next|]
  {
    hide Tails, TailHandles, TailSpans, Flatten, AllHandles, Encode, SpansConserved, Encoded, FreshQueue, AllOutgoing;
    TotalSplits(cfg, ms, j);
    TotalIsEncoding(cfg, ms);
    var (done, rest) := (Flatten(Encoded(ms[..j])), Flatten(Encoded(ms[j..])));
    assert wire == (done + rest)[..|wire|];
    assert wire[..k] == done + rest[..k - |done|];
    assert wire[|done|..k] == rest[..k - |done|];
    var hs := Handles(log);
    assert hs == (AllHandles(ms[..j]) + AllHandles(ms[j..]))[..|hs|];
    assert Handles(log[..c]) == hs[..c];
  }

  lemma ParseAll(cfg: Config, ms: seq<Message>, next: Bytes, later: seq<Handle>)
    requires AllAcceptable(cfg, ms) && Parse(cfg, next, later) == Parsed([], next, later, true)
    ensures Parse(cfg, Flatten(Encoded(ms)) + next, AllHandles(ms) + later) == Parsed(ms, next, later, true)
  {
    hide TryDispatch, Parse;
    ParseEncoded(cfg, ms);
    ParseSplit(cfg, Flatten(Encoded(ms)), next, AllHandles(ms), later);
    assert [] + next == next && [] + later == later && ms + [] == ms;
  }

  lemma NothingMore(cfg: Config, ms: seq<Message>, j: nat, next: Bytes, handles: seq<Handle>)
    requires Transferable(cfg, ms) && j <= |ms|
    requires j < |ms| ==> |next| < |Encode(ms[j])|
    requires next == if j < |ms| then Encode(ms[j])[..|next|] else []
    ensures Parse(cfg, next, handles) == Parsed([], next, handles, true)
  {
    if j < |ms| {
      PartialDispatchesNothing(cfg, ms[j], |next|, handles);
    }
  }

  /**
   A channel whose flush at the start did not fail, whatever its socket answered and whatever errors it met
   since, has a receiver that has dispatched a prefix of the messages it accepted, each with its own handles.
   */
  lemma ChannelDelivers(channel: PosixChannel, cfg: Config, ms: seq<Message>, chunks: seq<(Bytes, seq<Handle>)>)
    requires channel.Valid() && !channel.startFailed
    requires Transferable(cfg, ms) && channel.accepted == AllOutgoing(cfg, ms)
    requires AllBytes(chunks) <= channel.socket.wire && AllFds(chunks) <= Handles(channel.socket.log)
    ensures var r := ReceiveAll(cfg, chunks); r.ok && r.dispatched <= ms
  {
    hide Prefixed, Conserved, TotalOf, AllBytes, AllFds, ReceiveAll;
    ReceiverSeesPrefix(cfg, ms, channel.socket.wire, channel.socket.log, chunks);
  }

  /**
   And one that has had no error has a receiver of everything on the wire that has dispatched all that is complete.
   */
  lemma ChannelDeliversComplete(channel: PosixChannel, cfg: Config, ms: seq<Message>, j: nat)
    requires channel.Valid() && !channel.lost
    requires Transferable(cfg, ms) && channel.accepted == AllOutgoing(cfg, ms) && j <= |ms|
    requires |Flatten(Encoded(ms[..j]))| <= |channel.socket.wire|
    requires j < |ms| ==> |channel.socket.wire| < |Flatten(Encoded(ms[..j]))| + |Encode(ms[j])|
    ensures var p := Parse(cfg, channel.socket.wire, Handles(channel.socket.log)); p.ok && p.messages == ms[..j]
  {
    hide Prefixed, Conserved, TotalOf, Parse, Encode;
    var (wire, log) := (channel.socket.wire, channel.socket.log);
    var q := channel.outgoingMessages + [];
    ExactlyCompleteMessagesDelivered(cfg, ms, q, wire, log, |wire|, |log|, j);
    assert wire[..|wire|] == wire && log[..|log|] == log;
  }
}
