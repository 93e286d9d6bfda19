/**
 The wire format of channel messages and the receiver's view of it: `TryDispatchMessage` on a buffer,
 and the one-shot parse of everything received.
 */
module Framing {
  import opened RingMath
  import opened Messages

  type Handle = nat

  const LEGACY_HEADER_SIZE: nat := 8
  const HEADER_SIZE: nat := 16
  const IPCZ_HEADER_SIZE: nat := 8
  const NORMAL_LEGACY: nat := 0
  const NORMAL: nat := 1

  /** A message as the receiver hands it on. */
  datatype Message = Message(messageType: nat, payload: Bytes, handles: seq<Handle>)

  /** `control` holds the control message types that `OnControlMessage` accepts. */
  datatype Config = Config(ipcz: bool, acceptHandles: bool, control: set<nat>)

  // ---- little-endian fields ----

  function Field16(b: Bytes, at: nat): (r: nat)
    requires at + 2 <= |b|
    ensures r < 0x1_0000
  {
    b[at] as nat + 0x100 * (b[at + 1] as nat)
  }

  function Field32(b: Bytes, at: nat): (r: nat)
    requires at + 4 <= |b|
    ensures r < 0x1_0000_0000
  {
    Field16(b, at) + 0x1_0000 * Field16(b, at + 2)
  }

  function Put16(n: nat): (r: Bytes)
    requires n < 0x1_0000
    ensures |r| == 2 && Field16(r, 0) == n
  {
    [(n % 0x100) as byte, (n / 0x100) as byte]
  }

  function Put32(n: nat): (r: Bytes)
    requires n < 0x1_0000_0000
    ensures |r| == 4 && Field32(r, 0) == n
  {
    var lo, hi := Put16(n % 0x1_0000), Put16(n / 0x1_0000);
    assert (lo + hi)[2] == hi[0] && (lo + hi)[3] == hi[1];
    lo + hi
  }

  // ---- one dispatch ----

  datatype Dispatch =
    | NotEnoughData(missing: nat)
    | MissingHandles
    | Error
    | Dispatched(message: Message, size: nat)

  /** How many bytes a message must have before anything but its size is looked at. */
  function MessageSize(cfg: Config, buffer: Bytes): nat
    requires |buffer| >= 8
  {
    if cfg.ipcz then Field32(buffer, 4) else Field32(buffer, 0)
  }

  predicate BadSize(cfg: Config, buffer: Bytes)
    requires |buffer| >= 8
  {
    if cfg.ipcz then Field16(buffer, 0) < IPCZ_HEADER_SIZE || Field32(buffer, 4) < Field16(buffer, 0)
    else Field32(buffer, 0) < LEGACY_HEADER_SIZE
  }

  /** The sizes of the header and number of handles of a complete message, if its header makes sense. */
  datatype Header = BadHeader | Header(size: nat, messageType: nat, numHandles: nat)

  function ReadHeader(cfg: Config, buffer: Bytes): (h: Header)
    requires |buffer| >= 8 && !BadSize(cfg, buffer) && MessageSize(cfg, buffer) <= |buffer|
    ensures h.Header? ==> 8 <= h.size <= MessageSize(cfg, buffer)
  {
    if cfg.ipcz then Header(Field16(buffer, 0), NORMAL, Field16(buffer, 2))
    else
      var messageType := Field16(buffer, 6);
      if messageType == NORMAL_LEGACY then Header(LEGACY_HEADER_SIZE, messageType, Field16(buffer, 4))
      else
        var size := Field16(buffer, 4);
        if size < HEADER_SIZE || size > Field32(buffer, 0) then BadHeader
        else Header(size, messageType, Field16(buffer, 8))
  }

  /** `TryDispatchMessage` on a POSIX channel. */
  function TryDispatch(cfg: Config, buffer: Bytes, incoming: seq<Handle>): (d: Dispatch)
    requires |buffer| >= 8
    ensures d.Dispatched? ==> 8 <= d.size <= |buffer| && |d.message.handles| <= |incoming|
    ensures d.Dispatched? ==> d.message.handles == incoming[..|d.message.handles|]
  {
    if BadSize(cfg, buffer) then Error
    else
      var size := MessageSize(cfg, buffer);
      if |buffer| < size then NotEnoughData(size - |buffer|)
      else
        var h := ReadHeader(cfg, buffer);
        if h.BadHeader? || (h.numHandles > 0 && !cfg.acceptHandles) then Error
        else if h.numHandles > |incoming| then MissingHandles
        else if h.messageType != NORMAL && h.messageType != NORMAL_LEGACY && h.messageType !in cfg.control then Error
        else Dispatched(Message(h.messageType, buffer[h.size..size], incoming[..h.numHandles]), size)
  }

  /** Which verdict a message gets: the sizes are looked at first, then its handles, then its type. */
  lemma Verdicts(cfg: Config, buffer: Bytes, incoming: seq<Handle>)
    requires |buffer| >= 8
    ensures var (d, size) := (TryDispatch(cfg, buffer, incoming), MessageSize(cfg, buffer));
      var legacy := !cfg.ipcz && Field16(buffer, 6) == NORMAL_LEGACY;
      var header := if cfg.ipcz then Field16(buffer, 0) else if legacy then 8 else Field16(buffer, 4);
      var least := if cfg.ipcz || legacy then 8 else 16;
      && (size < 8 ==> d.Error?)
      && (cfg.ipcz && (header < 8 || header > size) ==> d.Error?)
      && (d.NotEnoughData? ==> size == |buffer| + d.missing && d.missing > 0)
      && (size <= |buffer| && (header < least || header > size) ==> d.Error?)
      && (8 <= size <= |buffer| && least <= header <= size ==>
            && (least == 8 || |buffer| >= 16)
            && var count := Field16(buffer, if cfg.ipcz then 2 else if legacy then 4 else 8);
               var kind := if cfg.ipcz then NORMAL else Field16(buffer, 6);
               var known := kind == NORMAL || kind == NORMAL_LEGACY || kind in cfg.control;
               && (d.MissingHandles? <==> count > |incoming| && cfg.acceptHandles)
               && (d.Error? <==> (count > 0 && !cfg.acceptHandles) || (count <= |incoming| && !known))
               && (d.Dispatched? ==>
                     d == Dispatched(Message(kind, buffer[header..size], incoming[..count]), size)))
  {
  }

  // ---- the one-shot parse ----

  datatype Parsed = Parsed(messages: seq<Message>, rest: Bytes, restHandles: seq<Handle>, ok: bool)

  /** Dispatch message after message until data or handles run out, or one is malformed. */
  function Parse(cfg: Config, bytes: Bytes, handles: seq<Handle>): Parsed
    decreases |bytes|
  {
    if |bytes| < 8 then Parsed([], bytes, handles, true)
    else
      match TryDispatch(cfg, bytes, handles)
      case Error => Parsed([], bytes, handles, false)
      case Dispatched(m, size) =>
        var p := Parse(cfg, bytes[size..], handles[|m.handles|..]);
        p.(messages := [m] + p.messages)
      case _ => Parsed([], bytes, handles, true)
  }

  /** More data and more handles do not change a verdict already reached. */
  lemma VerdictStable(cfg: Config, a: Bytes, b: Bytes, h: seq<Handle>, g: seq<Handle>)
    requires |a| >= 8
    ensures TryDispatch(cfg, a, h).Dispatched? || TryDispatch(cfg, a, h).Error? ==>
              TryDispatch(cfg, a + b, h + g) == TryDispatch(cfg, a, h)
  {
    assert forall i :: 0 <= i < |a| ==> (a + b)[i] == a[i];
    assert BadSize(cfg, a + b) == BadSize(cfg, a) && MessageSize(cfg, a + b) == MessageSize(cfg, a);
    if !BadSize(cfg, a) && MessageSize(cfg, a) <= |a| {
      var size := MessageSize(cfg, a);
      assert ReadHeader(cfg, a + b) == ReadHeader(cfg, a);
      var head := ReadHeader(cfg, a);
      if head.Header? {
        assert (a + b)[head.size..size] == a[head.size..size];
        if head.numHandles <= |h| {
          assert (h + g)[..head.numHandles] == h[..head.numHandles];
        }
      }
    }
  }

  function Prepend(ms: seq<Message>, p: Parsed): Parsed { p.(messages := ms + p.messages) }

  /** Parsing in two goes is parsing in one. */
  lemma {:induction false} ParseSplit(cfg: Config, a: Bytes, b: Bytes, h: seq<Handle>, g: seq<Handle>)
    ensures var p := Parse(cfg, a, h);
      var whole := Parse(cfg, a + b, h + g);
      if p.ok then whole == Prepend(p.messages, Parse(cfg, p.rest + b, p.restHandles + g))
      else whole.messages == p.messages && !whole.ok
    decreases |a|
  {
    hide TryDispatch;
    if |a| < 8 {
      return;
    }
    VerdictStable(cfg, a, b, h, g);
    var d := TryDispatch(cfg, a, h);
    if d.Dispatched? {
      var n := |d.message.handles|;
      assert (a + b)[d.size..] == a[d.size..] + b && (h + g)[n..] == h[n..] + g;
      ParseSplit(cfg, a[d.size..], b, h[n..], g);
      var p1 := Parse(cfg, a[d.size..], h[n..]);
      var q := Parse(cfg, p1.rest + b, p1.restHandles + g);
      assert [d.message] + (p1.messages + q.messages) == ([d.message] + p1.messages) + q.messages;
    }
  }

  // ---- the sender's side of the format ----

  /** Messages a sender may emit: their sizes fit the header fields. */
  predicate Sendable(m: Message) {
    && |m.payload| + HEADER_SIZE < 0x1_0000_0000 && m.messageType < 0x1_0000 && |m.handles| < 0x1_0000
  }

  /** A message laid out behind its header, as `ComplexMessage` builds it without an extra header. */
  function Encode(m: Message): (r: Bytes)
    requires Sendable(m)
    ensures |r| >= 8
  {
    if m.messageType == NORMAL_LEGACY then
      Put32(LEGACY_HEADER_SIZE + |m.payload|) + Put16(|m.handles|) + Put16(NORMAL_LEGACY) + m.payload
    else
      Put32(HEADER_SIZE + |m.payload|) + Put16(HEADER_SIZE) + Put16(m.messageType) + Put16(|m.handles|)
        + [0, 0, 0, 0, 0, 0] + m.payload
  }

  /** What the receiving channel is configured to take. */
  predicate Acceptable(cfg: Config, m: Message) {
    && !cfg.ipcz && Sendable(m) && (m.handles != [] ==> cfg.acceptHandles)
    && (m.messageType == NORMAL || m.messageType == NORMAL_LEGACY || m.messageType in cfg.control)
  }

  /** Decoding undoes encoding, whatever follows on the wire. */
  lemma DispatchEncoded(cfg: Config, m: Message, b: Bytes, g: seq<Handle>)
    requires Acceptable(cfg, m)
    ensures TryDispatch(cfg, Encode(m) + b, m.handles + g) == Dispatched(m, |Encode(m)|)
  {
    var e := Encode(m);
    var buffer := e + b;
    FieldsOfEncoding(m, b);
    assert (m.handles + g)[..|m.handles|] == m.handles;
    assert buffer[(if m.messageType == NORMAL_LEGACY then 8 else 16)..|e|] == m.payload;
  }

  lemma FieldsOfEncoding(m: Message, b: Bytes)
    requires Sendable(m)
    ensures var buffer := Encode(m) + b;
      && |buffer| >= 8 && Field32(buffer, 0) == |Encode(m)| && Field16(buffer, 6) == m.messageType
      && (m.messageType == NORMAL_LEGACY ==> |Encode(m)| == 8 + |m.payload| && Field16(buffer, 4) == |m.handles|)
      && (m.messageType != NORMAL_LEGACY ==>
            |Encode(m)| == 16 + |m.payload| && Field16(buffer, 4) == HEADER_SIZE && Field16(buffer, 8) == |m.handles|)
  {
    var buffer := Encode(m) + b;
    var size := Put32(|Encode(m)|);
    assert buffer[0] == size[0] && buffer[1] == size[1] && buffer[2] == size[2] && buffer[3] == size[3];
    var kind := Put16(m.messageType);
    assert buffer[6] == kind[0] && buffer[7] == kind[1];
    var count := Put16(|m.handles|);
    if m.messageType == NORMAL_LEGACY {
      assert buffer[4] == count[0] && buffer[5] == count[1];
    } else {
      var head := Put16(HEADER_SIZE);
      assert buffer[4] == head[0] && buffer[5] == head[1];
      assert buffer[8] == count[0] && buffer[9] == count[1];
    }
  }

  // ---- whole streams ----

  function Encoded(ms: seq<Message>): (r: seq<Bytes>)
    requires forall i :: 0 <= i < |ms| ==> Sendable(ms[i])
    ensures |r| == |ms|
  {
    seq(|ms|, i requires 0 <= i < |ms| => Encode(ms[i]))
  }

  function AllHandles(ms: seq<Message>): seq<Handle> {
    if ms == [] then [] else ms[0].handles + AllHandles(ms[1..])
  }

  predicate AllAcceptable(cfg: Config, ms: seq<Message>) {
    forall i :: 0 <= i < |ms| ==> Acceptable(cfg, ms[i])
  }

  /** A whole stream of messages parses back to exactly those messages, with nothing left over. */
  lemma {:induction false} ParseEncoded(cfg: Config, ms: seq<Message>)
    requires AllAcceptable(cfg, ms)
    ensures Parse(cfg, Flatten(Encoded(ms)), AllHandles(ms)) == Parsed(ms, [], [], true)
  {
    hide TryDispatch, Encode;
    if ms != [] {
      assert Encoded(ms)[1..] == Encoded(ms[1..]);
      ParseEncoded(cfg, ms[1..]);
      var (b, g) := (Flatten(Encoded(ms[1..])), AllHandles(ms[1..]));
      DispatchEncoded(cfg, ms[0], b, g);
      var e := Encode(ms[0]);
      assert (e + b)[|e|..] == b && (ms[0].handles + g)[|ms[0].handles|..] == g;
      assert [ms[0]] + ms[1..] == ms;
    }
  }

  /** From any part of the stream that has arrived, the receiver dispatches a prefix of what was sent. */
  lemma PrefixDelivered(cfg: Config, ms: seq<Message>, bytes: Bytes, handles: seq<Handle>)
    requires AllAcceptable(cfg, ms)
    requires bytes <= Flatten(Encoded(ms)) && handles <= AllHandles(ms)
    ensures var p := Parse(cfg, bytes, handles); p.ok && p.messages <= ms
  {
    var (all, allHandles) := (Flatten(Encoded(ms)), AllHandles(ms));
    assert all == bytes + all[|bytes|..] && allHandles == handles + allHandles[|handles|..];
    ParseEncoded(cfg, ms);
    ParseSplit(cfg, bytes, all[|bytes|..], handles, allHandles[|handles|..]);
  }

  // ---- ipcz messages ----

  /** An ipcz message whose sizes fit the fields of its header, which may be longer than the receiver knows. */
  predicate SendableForIpcz(m: Message, extra: Bytes) {
    && m.messageType == NORMAL && |m.handles| < 0x1_0000 && IPCZ_HEADER_SIZE + |extra| < 0x1_0000
    && IPCZ_HEADER_SIZE + |extra| + |m.payload| < 0x1_0000_0000
  }

  function EncodeForIpcz(m: Message, extra: Bytes): (r: Bytes)
    requires SendableForIpcz(m, extra)
    ensures |r| == IPCZ_HEADER_SIZE + |extra| + |m.payload|
  {
    Put16(IPCZ_HEADER_SIZE + |extra|) + Put16(|m.handles|) + Put32(IPCZ_HEADER_SIZE + |extra| + |m.payload|)
      + extra + m.payload
  }

  lemma FieldsForIpcz(m: Message, extra: Bytes, b: Bytes)
    requires SendableForIpcz(m, extra)
    ensures var (e, buffer) := (EncodeForIpcz(m, extra), EncodeForIpcz(m, extra) + b);
      && Field16(buffer, 0) == IPCZ_HEADER_SIZE + |extra| && Field16(buffer, 2) == |m.handles|
      && Field32(buffer, 4) == |e| && buffer[IPCZ_HEADER_SIZE + |extra|..|e|] == m.payload
  {
    var (e, buffer) := (EncodeForIpcz(m, extra), EncodeForIpcz(m, extra) + b);
    var (head, count, size) := (Put16(IPCZ_HEADER_SIZE + |extra|), Put16(|m.handles|), Put32(|e|));
    assert buffer[0] == head[0] && buffer[1] == head[1] && buffer[2] == count[0] && buffer[3] == count[1];
    assert buffer[4] == size[0] && buffer[5] == size[1] && buffer[6] == size[2] && buffer[7] == size[3];
  }

  /** A channel for ipcz hands on the payload behind the whole header, with the handles the header counts. */
  lemma DispatchForIpcz(cfg: Config, m: Message, extra: Bytes, b: Bytes, g: seq<Handle>)
    requires cfg.ipcz && SendableForIpcz(m, extra) && (m.handles != [] ==> cfg.acceptHandles)
    ensures TryDispatch(cfg, EncodeForIpcz(m, extra) + b, m.handles + g) == Dispatched(m, |EncodeForIpcz(m, extra)|)
  {
    hide EncodeForIpcz, Field32, Field16;
    FieldsForIpcz(m, extra, b);
    assert (m.handles + g)[..|m.handles|] == m.handles;
  }

  predicate AllForIpcz(cfg: Config, ms: seq<Message>, extras: seq<Bytes>) {
    && cfg.ipcz && |extras| == |ms|
    && forall i :: 0 <= i < |ms| ==>
         SendableForIpcz(ms[i], extras[i]) && (ms[i].handles != [] ==> cfg.acceptHandles)
  }

  function EncodedForIpcz(cfg: Config, ms: seq<Message>, extras: seq<Bytes>): (r: Bytes)
    requires AllForIpcz(cfg, ms, extras)
  {
    if ms == [] then [] else EncodeForIpcz(ms[0], extras[0]) + EncodedForIpcz(cfg, ms[1..], extras[1..])
  }

  /** A whole stream of ipcz messages parses back to exactly those messages. */
  lemma {:induction false} ParseForIpcz(cfg: Config, ms: seq<Message>, extras: seq<Bytes>)
    requires AllForIpcz(cfg, ms, extras)
    ensures Parse(cfg, EncodedForIpcz(cfg, ms, extras), AllHandles(ms)) == Parsed(ms, [], [], true)
    decreases |ms|
  {
    hide TryDispatch, EncodeForIpcz;
    if ms != [] {
      ParseForIpcz(cfg, ms[1..], extras[1..]);
      var (b, g) := (EncodedForIpcz(cfg, ms[1..], extras[1..]), AllHandles(ms[1..]));
      DispatchForIpcz(cfg, ms[0], extras[0], b, g);
      var e := EncodeForIpcz(ms[0], extras[0]);
      assert (e + b)[|e|..] == b && (ms[0].handles + g)[|ms[0].handles|..] == g;
      assert [ms[0]] + ms[1..] == ms;
    }
  }
}
