/**
 The specification of the POSIX write queue: at every release of the lock, what is on the wire
 followed by the unsent tails of the queue is everything accepted so far, and every handle went out
 exactly once, beside bytes of its own message.
 */
module WriteQueue {
  import opened Messages
  import opened Framing

  const MAX_SENDMSG_HANDLES: nat := 128

  /** A queued message with the part of it that is already out. */
  datatype View = View(bytes: Bytes, offset: nat, handles: seq<Handle>, handlesSent: nat) {
    predicate Valid() { offset < |bytes| && handlesSent <= |handles| <= MAX_SENDMSG_HANDLES }

    function Tail(): Bytes
      requires Valid()
    {
      bytes[offset..]
    }

    function UnsentHandles(): seq<Handle>
      requires Valid()
    {
      handles[handlesSent..]
    }
  }

  predicate ValidQueue(q: seq<View>) { forall i :: 0 <= i < |q| ==> q[i].Valid() }

  function Tails(q: seq<View>): Bytes
    requires ValidQueue(q)
  {
    if q == [] then [] else q[0].Tail() + Tails(q[1..])
  }

  function TailHandles(q: seq<View>): seq<Handle>
    requires ValidQueue(q)
  {
    if q == [] then [] else q[0].UnsentHandles() + TailHandles(q[1..])
  }

  /** The stretch of the byte stream that one message occupies. */
  datatype Span = Span(lo: int, hi: int)

  function Repeat(x: Span, n: nat): (r: seq<Span>)
    ensures |r| == n
  {
    seq(n, _ => x)
  }

  /** For each unsent handle, the span of its message, when the first unsent byte is at `at`. */
  function TailSpans(q: seq<View>, at: int): seq<Span>
    requires ValidQueue(q)
  {
    if q == [] then []
    else
      Repeat(Span(at - q[0].offset, at - q[0].offset + |q[0].bytes|), |q[0].UnsentHandles()|)
        + TailSpans(q[1..], at + |q[0].Tail()|)
  }

  /** A handle on the wire, and the stream position of the bytes it was sent beside. */
  datatype SentHandle = SentHandle(handle: Handle, pos: nat)

  function Handles(log: seq<SentHandle>): (r: seq<Handle>)
    ensures |r| == |log|
  {
    seq(|log|, i requires 0 <= i < |log| => log[i].handle)
  }

  function Beside(hs: seq<Handle>, pos: nat): (r: seq<SentHandle>)
    ensures |r| == |hs|
  {
    seq(|hs|, i requires 0 <= i < |hs| => SentHandle(hs[i], pos))
  }

  /** Everything accepted: its bytes, its handles, and for each handle its message's span. */
  datatype Total = Total(bytes: Bytes, handles: seq<Handle>, spans: seq<Span>)

  predicate LogInSpans(log: seq<SentHandle>, spans: seq<Span>) {
    |log| <= |spans| && forall j :: 0 <= j < |log| ==> spans[j].lo <= log[j].pos < spans[j].hi
  }

  predicate Conserved(total: Total, q: seq<View>, wire: Bytes, log: seq<SentHandle>) {
    && ValidQueue(q)
    && total.bytes == wire + Tails(q)
    && total.handles == Handles(log) + TailHandles(q)
    && SpansConserved(total.spans, q, |wire|, log)
  }

  predicate SpansConserved(spans: seq<Span>, q: seq<View>, at: nat, log: seq<SentHandle>)
    requires ValidQueue(q)
  {
    LogInSpans(log, spans) && spans[|log|..] == TailSpans(q, at)
  }

  /** What remains true after a hard error. */
  predicate Prefixed(total: Total, wire: Bytes, log: seq<SentHandle>) {
    wire <= total.bytes && Handles(log) <= total.handles && LogInSpans(log, total.spans)
  }

  lemma ConservedIsPrefixed(total: Total, q: seq<View>, wire: Bytes, log: seq<SentHandle>)
    requires Conserved(total, q, wire, log)
    ensures Prefixed(total, wire, log)
  {
  }

  lemma FrontIsValid(total: Total, v: View, rest: seq<View>, wire: Bytes, log: seq<SentHandle>)
    requires Conserved(total, [v] + rest, wire, log)
    ensures v.Valid()
  {
    assert ([v] + rest)[0] == v;
  }

  /** What is left of a message at the front of the queue is not on the wire. */
  lemma TailIsMissing(total: Total, v: View, rest: seq<View>, wire: Bytes, log: seq<SentHandle>)
    requires Conserved(total, [v] + rest, wire, log)
    ensures |wire| < |total.bytes| && v.Valid() && total.bytes[|wire|] == v.bytes[v.offset]
  {
    assert ([v] + rest)[0] == v;
  }

  lemma QueueIsValid(total: Total, q: seq<View>, behind: seq<View>, wire: Bytes, log: seq<SentHandle>)
    requires Conserved(total, q + behind, wire, log)
    ensures ValidQueue(q)
  {
    assert forall i :: 0 <= i < |q| ==> q[i] == (q + behind)[i];
  }

  lemma RestIsValid(total: Total, v: View, q: seq<View>, behind: seq<View>, wire: Bytes, log: seq<SentHandle>)
    requires Conserved(total, [v] + (q + behind), wire, log)
    ensures ValidQueue(q)
  {
    assert forall i :: 0 <= i < |q| ==> q[i] == ([v] + (q + behind))[i + 1];
  }

  // ---- queues grow at the back ----

  lemma {:induction false} TailsAppend(q: seq<View>, r: seq<View>)
    requires ValidQueue(q) && ValidQueue(r)
    ensures ValidQueue(q + r)
    ensures Tails(q + r) == Tails(q) + Tails(r)
    ensures TailHandles(q + r) == TailHandles(q) + TailHandles(r)
  {
    if q == [] {
      assert q + r == r;
    } else {
      assert (q + r)[1..] == q[1..] + r;
      TailsAppend(q[1..], r);
    }
  }

  lemma {:induction false} SpansAppend(q: seq<View>, r: seq<View>, at: int)
    requires ValidQueue(q) && ValidQueue(r)
    ensures ValidQueue(q + r)
    ensures TailSpans(q + r, at) == TailSpans(q, at) + TailSpans(r, at + |Tails(q)|)
    decreases q
  {
    if q == [] {
      assert q + r == r;
    } else {
      assert (q + r)[1..] == q[1..] + r;
      SpansAppend(q[1..], r, at + |q[0].Tail()|);
    }
  }

  /** The front message split off. */
  lemma FrontOf(v: View, rest: seq<View>, at: int)
    requires ValidQueue([v] + rest)
    ensures v.Valid() && ValidQueue(rest)
    ensures Tails([v] + rest) == v.Tail() + Tails(rest)
    ensures TailHandles([v] + rest) == v.UnsentHandles() + TailHandles(rest)
    ensures TailSpans([v] + rest, at)
         == Repeat(Span(at - v.offset, at - v.offset + |v.bytes|), |v.UnsentHandles()|)
              + TailSpans(rest, at + |v.Tail()|)
  {
    var q := [v] + rest;
    assert q[0] == v && q[1..] == rest;
  }

  // ---- one system call ----

  /** What is left of a view after `n` more bytes, and its handles if they were sent along. */
  function Advanced(v: View, n: nat, withHandles: bool): View {
    v.(offset := v.offset + n, handlesSent := if withHandles then |v.handles| else v.handlesSent)
  }

  /** Sending the first `k` of the unsent handles beside the byte at `at` keeps every handle in its span. */
  lemma SendKeepsSpans(spans: seq<Span>, v: View, rest: seq<View>, at: nat, log: seq<SentHandle>, k: nat)
    requires ValidQueue([v] + rest) && v.Valid() && SpansConserved(spans, [v] + rest, at, log)
    requires k <= |v.UnsentHandles()|
    ensures ValidQueue(rest)
    ensures var log' := log + Beside(v.UnsentHandles()[..k], at);
      && LogInSpans(log', spans)
      && spans[|log'|..] == Repeat(Span(at - v.offset, at - v.offset + |v.bytes|), |v.UnsentHandles()| - k)
                              + TailSpans(rest, at + |v.Tail()|)
  {
    FrontOf(v, rest, at);
    var log' := log + Beside(v.UnsentHandles()[..k], at);
    var span := Span(at - v.offset, at - v.offset + |v.bytes|);
    var later := TailSpans(rest, at + |v.Tail()|);
    assert spans[|log|..] == Repeat(span, |v.UnsentHandles()|) + later;
    forall j | |log| <= j < |log'|
      ensures spans[j] == span
    {
      assert spans[j] == spans[|log|..][j - |log|];
    }
    assert spans[|log'|..] == spans[|log|..][k..];
    assert Repeat(span, |v.UnsentHandles()|)[k..] == Repeat(span, |v.UnsentHandles()| - k);
  }

  lemma HandlesBeside(log: seq<SentHandle>, hs: seq<Handle>, pos: nat)
    ensures Handles(log + Beside(hs, pos)) == Handles(log) + hs
  {
  }

  /**
   A call that puts `n` bytes of the front message on the wire, with all its unsent handles or with
   none, moves them from the queue to the wire and changes nothing else.
   */
  lemma SendConserves(
    total: Total, v: View, rest: seq<View>, wire: Bytes, log: seq<SentHandle>, n: nat, withHandles: bool)
    requires Conserved(total, [v] + rest, wire, log) && v.Valid() && n <= |v.Tail()|
    requires n == |v.Tail()| ==> withHandles || v.UnsentHandles() == []
    ensures var hs := if withHandles then v.UnsentHandles() else [];
      Conserved(total, if n < |v.Tail()| then [Advanced(v, n, withHandles)] + rest else rest,
                wire + v.Tail()[..n], log + Beside(hs, |wire|))
  {
    hide TailSpans, Tails, TailHandles, Handles, Beside, LogInSpans;
    var hs := if withHandles then v.UnsentHandles() else [];
    var (left, leftHandles) := (v.Tail()[n..], v.UnsentHandles()[|hs|..]);
    FrontOf(v, rest, |wire|);
    SendKeepsSpans(total.spans, v, rest, |wire|, log, |hs|);
    assert v.UnsentHandles()[..|hs|] == hs;
    HandlesBeside(log, hs, |wire|);
    Reassociate(wire, v.Tail(), n, Tails(rest));
    Reassociate(Handles(log), v.UnsentHandles(), |hs|, TailHandles(rest));
    if n < |v.Tail()| {
      var v' := Advanced(v, n, withHandles);
      assert ValidQueue([v'] + rest);
      FrontOf(v', rest, |wire| + n);
      assert v'.Tail() == left && v'.UnsentHandles() == leftHandles;
    } else {
      assert left + Tails(rest) == Tails(rest) && leftHandles + TailHandles(rest) == TailHandles(rest);
      assert Repeat(Span(|wire| - v.offset, |wire| - v.offset + |v.bytes|), 0) == [];
    }
  }

  lemma Reassociate<T>(a: seq<T>, b: seq<T>, k: nat, c: seq<T>)
    requires k <= |b|
    ensures a + (b + c) == (a + b[..k]) + (b[k..] + c)
  {
    assert b == b[..k] + b[k..];
  }

  // ---- several messages at once ----

  /** `iov` lists the tails of the first messages of the queue, none of which has handles left to send. */
  predicate IovMatches(iov: seq<Bytes>, q: seq<View>) {
    && ValidQueue(q) && |iov| <= |q|
    && forall j :: 0 <= j < |iov| ==> iov[j] == q[j].Tail() && q[j].UnsentHandles() == []
  }

  /** Sending a whole front message by writev pops it; sending part of it advances it. */
  lemma WritevConserves(
    total: Total, iov: seq<Bytes>, q: seq<View>, behind: seq<View>, wire: Bytes, log: seq<SentHandle>, n: nat)
    requires Conserved(total, q + behind, wire, log) && IovMatches(iov, q) && iov != [] && n <= |iov[0]|
    ensures n == |iov[0]| ==>
      Conserved(total, q[1..] + behind, wire + iov[0], log) && IovMatches(iov[1..], q[1..])
    ensures n < |iov[0]| ==>
      && var v := Advanced(q[0], n, false);
      && v.Valid() && Conserved(total, [v] + q[1..] + behind, wire + iov[0][..n], log)
      && IovMatches(iov[0 := v.Tail()], [v] + q[1..])
  {
    hide Conserved, Beside;
    var rest := q[1..] + behind;
    assert q + behind == [q[0]] + rest;
    SendConserves(total, q[0], rest, wire, log, n, false);
    NothingBeside(log, |wire|);
    assert iov[0][..|iov[0]|] == iov[0];
    var v := Advanced(q[0], n, false);
    assert [v] + q[1..] + behind == [v] + rest;
    IovAdvances(iov, q, n);
  }

  lemma NothingBeside(log: seq<SentHandle>, pos: nat)
    ensures log + Beside([], pos) == log
  {
  }

  lemma IovAdvances(iov: seq<Bytes>, q: seq<View>, n: nat)
    requires IovMatches(iov, q) && iov != [] && n <= |iov[0]|
    ensures n == |iov[0]| ==> IovMatches(iov[1..], q[1..])
    ensures n < |iov[0]| ==>
      && var v := Advanced(q[0], n, false);
      && v.Valid() && IovMatches(iov[0 := v.Tail()], [v] + q[1..])
  {
  }

  // ---- everything accepted so far ----

  datatype Outgoing = Outgoing(bytes: Bytes, handles: seq<Handle>) {
    predicate Valid() { bytes != [] && |handles| <= MAX_SENDMSG_HANDLES }

    function Fresh(): View { View(bytes, 0, handles, 0) }
  }

  function FreshQueue(ms: seq<Outgoing>): (r: seq<View>)
    ensures |r| == |ms|
  {
    seq(|ms|, i requires 0 <= i < |ms| => ms[i].Fresh())
  }

  predicate AllValid(ms: seq<Outgoing>) { forall i :: 0 <= i < |ms| ==> ms[i].Valid() }

  /** The total that a list of messages amounts to. */
  function TotalOf(ms: seq<Outgoing>): Total
    requires AllValid(ms)
  {
    Total(Tails(FreshQueue(ms)), TailHandles(FreshQueue(ms)), TailSpans(FreshQueue(ms), 0))
  }

  lemma NothingAccepted()
    ensures Conserved(TotalOf([]), [], [], [])
  {
    assert FreshQueue([]) == [];
  }

  /** Accepting one more message adds its view at the end of the total. */
  lemma TotalGrows(ms: seq<Outgoing>, m: Outgoing)
    requires AllValid(ms) && m.Valid()
    ensures ValidQueue([m.Fresh()]) && AllValid(ms + [m])
    ensures var (before, v) := (TotalOf(ms), [m.Fresh()]);
      TotalOf(ms + [m]) == Total(before.bytes + Tails(v), before.handles + TailHandles(v),
                                 before.spans + TailSpans(v, |before.bytes|))
  {
    var v := [m.Fresh()];
    assert FreshQueue(ms + [m]) == FreshQueue(ms) + v;
    TailsAppend(FreshQueue(ms), v);
    SpansAppend(FreshQueue(ms), v, 0);
  }

  /** Accepting a message and queueing it at the back keeps the books balanced. */
  lemma AcceptConserves(ms: seq<Outgoing>, m: Outgoing, q: seq<View>, wire: Bytes, log: seq<SentHandle>)
    requires AllValid(ms) && m.Valid() && Conserved(TotalOf(ms), q, wire, log)
    ensures AllValid(ms + [m]) && Conserved(TotalOf(ms + [m]), q + [m.Fresh()], wire, log)
  {
    hide TotalOf, TailSpans, Tails, TailHandles;
    var v := [m.Fresh()];
    TotalGrows(ms, m);
    TailsAppend(q, v);
    SpansAppend(q, v, |wire|);
    var (before, after) := (TotalOf(ms), TotalOf(ms + [m]));
    assert after.spans[|log|..] == before.spans[|log|..] + TailSpans(v, |before.bytes|);
  }

  /** Accepting more cannot turn what is on the wire into a non-prefix. */
  lemma AcceptKeepsPrefix(ms: seq<Outgoing>, m: Outgoing, wire: Bytes, log: seq<SentHandle>)
    requires AllValid(ms) && m.Valid() && Prefixed(TotalOf(ms), wire, log)
    ensures AllValid(ms + [m]) && Prefixed(TotalOf(ms + [m]), wire, log)
    ensures |TotalOf(ms).bytes| <= |TotalOf(ms + [m]).bytes|
  {
    TotalGrows(ms, m);
  }

  // ---- after a message was dropped ----

  /** Whatever has happened before, wire and queue are together some total. */
  lemma SomeTotal(q: seq<View>, wire: Bytes, log: seq<SentHandle>) returns (total: Total)
    requires ValidQueue(q)
    ensures Conserved(total, q, wire, log)
  {
    var spans := seq(|log|, i requires 0 <= i < |log| => Span(log[i].pos, log[i].pos + 1));
    total := Total(wire + Tails(q), Handles(log) + TailHandles(q), spans + TailSpans(q, |wire|));
  }
}
