/**
 The two representations of a channel message, and the reconstruction of a message from its bytes on
 each platform's header layout.
 */
module MessageFormat {
  import opened Basics
  import opened RingMath
  import opened Messages
  import opened Framing

  /** TrivialMessage::kInternalCapacity: 256 bytes less the base class. */
  const INTERNAL_CAPACITY: nat := 240
  const MAX_ATTACHED_HANDLES: nat := 64
  const ALIGNMENT: nat := 8

  function BaseHeaderSize(messageType: nat): (r: nat)
    ensures r == 8 || r == 16
  {
    if messageType == NORMAL_LEGACY then LEGACY_HEADER_SIZE else HEADER_SIZE
  }

  // ---- drafts: what the caller has asked for, whatever the representation ----

  /** A message under construction, with the payload bytes written so far by position. */
  datatype Draft = Draft(messageType: nat, payloadSize: nat, written: map<nat, byte>)

  datatype Op =
    | WritePayload(at: nat, bytes: Bytes)
    | ExtendPayload(newSize: nat, grown: nat)    // `grown` is the old capacity times the growth factor

  function BytesAt(at: nat, bytes: Bytes): map<nat, byte> {
    map k | at <= k < at + |bytes| :: ByteFor(at, bytes, k)
  }

  function ByteFor(at: nat, bytes: Bytes, k: int): byte
    requires at <= k < at + |bytes|
  {
    bytes[k - at]
  }

  function Apply(d: Draft, op: Op): Draft {
    match op
    case WritePayload(at, bytes) => d.(written := d.written + BytesAt(at, bytes))
    case ExtendPayload(n, _) => d.(payloadSize := n)
  }

  function ApplyAll(d: Draft, ops: seq<Op>): Draft
    decreases |ops|
  {
    if ops == [] then d else ApplyAll(Apply(d, ops[0]), ops[1..])
  }

  /** Writes stay inside the payload, and sizes fit the header's field. */
  predicate Legal(d: Draft, ops: seq<Op>)
    decreases |ops|
  {
    ops == [] || (LegalOp(d, ops[0]) && Legal(Apply(d, ops[0]), ops[1..]))
  }

  predicate LegalOp(d: Draft, op: Op) {
    match op
    case WritePayload(at, bytes) => at + |bytes| <= d.payloadSize
    case ExtendPayload(n, _) => n + HEADER_SIZE < 0x1_0000_0000
  }

  /** Every payload byte has been written. */
  predicate Complete(d: Draft) {
    forall k :: 0 <= k < d.payloadSize ==> k in d.written
  }

  function Payload(d: Draft): Bytes
    requires Complete(d)
  {
    seq(d.payloadSize, k requires 0 <= k < d.payloadSize => d.written[k])
  }

  /** The header of a message without handles. */
  function HeaderBytes(messageType: nat, size: nat): (r: Bytes)
    requires messageType < 0x1_0000 && size < 0x1_0000_0000
    ensures |r| == BaseHeaderSize(messageType)
  {
    if messageType == NORMAL_LEGACY then Put32(size) + Put16(0) + Put16(NORMAL_LEGACY)
    else Put32(size) + Put16(HEADER_SIZE) + Put16(messageType) + Put16(0) + [0, 0, 0, 0, 0, 0]
  }

  /** The fields of the header behind the size do not depend on it. */
  lemma SizeIsFirst(messageType: nat, size: nat)
    requires messageType < 0x1_0000 && size < 0x1_0000_0000
    ensures HeaderBytes(messageType, size) == Put32(size) + HeaderBytes(messageType, 0)[4..]
  {
  }

  /** What the bytes of a message must be, as far as the caller has determined them. */
  ghost predicate Carries(wire: Bytes, d: Draft) {
    && d.messageType < 0x1_0000 && d.payloadSize + HEADER_SIZE < 0x1_0000_0000
    && var h := BaseHeaderSize(d.messageType);
    && |wire| == h + d.payloadSize
    && wire[..h] == HeaderBytes(d.messageType, |wire|)
    && forall k :: 0 <= k < d.payloadSize && k in d.written ==> wire[h + k] == d.written[k]
  }

  /** Once the whole payload is written the bytes are the encoding of the message, and no others. */
  lemma CarriesComplete(wire: Bytes, d: Draft)
    requires Carries(wire, d) && Complete(d)
    ensures wire == Encode(Message(d.messageType, Payload(d), []))
  {
    hide Put16, Put32;
    var h := BaseHeaderSize(d.messageType);
    assert wire[h..] == Payload(d);
    assert wire == wire[..h] + wire[h..];
    EncodeIsHeader(d.messageType, Payload(d));
  }

  lemma EncodeIsHeader(messageType: nat, payload: Bytes)
    requires messageType < 0x1_0000 && |payload| + HEADER_SIZE < 0x1_0000_0000
    ensures Encode(Message(messageType, payload, []))
         == HeaderBytes(messageType, BaseHeaderSize(messageType) + |payload|) + payload
  {
    hide Put16, Put32;
  }

  /** Two messages that carry the same draft agree on the header and on every byte the caller wrote. */
  lemma CarriesAgree(a: Bytes, b: Bytes, d: Draft)
    requires Carries(a, d) && Carries(b, d)
    ensures var h := BaseHeaderSize(d.messageType);
      && |a| == |b| && a[..h] == b[..h]
      && forall k :: 0 <= k < d.payloadSize && k in d.written ==> a[h + k] == b[h + k]
    ensures Complete(d) ==> a == b
  {
    if Complete(d) {
      CarriesComplete(a, d);
      CarriesComplete(b, d);
    }
  }

  // ---- the two representations ----

  class MessageBuffer {
    const trivial: bool
    const messageType: nat
    var data: array<byte>
    var size: nat
    ghost var written: map<nat, byte>

    ghost predicate Valid()
      reads this, data
    {
      var h := BaseHeaderSize(messageType);
      && messageType < 0x1_0000 && h <= size <= data.Length && size - h + HEADER_SIZE < 0x1_0000_0000
      && (trivial ==> data.Length == INTERNAL_CAPACITY)
      && data[..h] == HeaderBytes(messageType, size)
      && (forall k <- written :: k < data.Length - h && data[h + k] == written[k])
    }

    ghost function Value(): Draft
      reads this
    {
      var h := BaseHeaderSize(messageType);
      Draft(messageType, if h <= size then size - h else 0, written)
    }

    /** The bytes handed to the channel. */
    ghost function Wire(): (r: Bytes)
      requires Valid()
      reads this, data
      ensures Carries(r, Value())
    {
      var h := BaseHeaderSize(messageType);
      assert data[..size][..h] == data[..h];
      data[..size]
    }

    function Capacity(): nat
      requires BaseHeaderSize(messageType) <= data.Length
      reads this
    {
      data.Length - BaseHeaderSize(messageType)
    }

    /** `TrivialMessage::TryConstruct` once the size is known to fit; the whole buffer is cleared. */
    constructor Trivial(payloadSize: nat, messageType: nat)
      requires messageType < 0x1_0000 && BaseHeaderSize(messageType) + payloadSize <= INTERNAL_CAPACITY
      ensures Valid() && trivial && fresh(data) && Value() == Draft(messageType, payloadSize, map[])
    {
      trivial := true;
      this.messageType := messageType;
      size := BaseHeaderSize(messageType) + payloadSize;
      written := map[];
      data := new byte[INTERNAL_CAPACITY](_ => 0);
      new;
      WriteHeader();
    }

    /** `ComplexMessage` without handles: only the header is cleared, `junk` is what the allocator left. */
    constructor Complex(capacity: nat, payloadSize: nat, messageType: nat, junk: Bytes)
      requires messageType < 0x1_0000 && payloadSize <= capacity && payloadSize + HEADER_SIZE < 0x1_0000_0000
      requires |junk| >= capacity + HEADER_SIZE
      ensures Valid() && !trivial && fresh(data) && Value() == Draft(messageType, payloadSize, map[])
      ensures data.Length == BaseHeaderSize(messageType) + capacity
    {
      trivial := false;
      this.messageType := messageType;
      size := BaseHeaderSize(messageType) + payloadSize;
      written := map[];
      data := new byte[BaseHeaderSize(messageType) + capacity](k requires 0 <= k < |junk| => junk[k]);
      new;
      WriteHeader();
    }

    /** Fills in the header fields for the current size. */
    method WriteHeader()
      requires var h := BaseHeaderSize(messageType);
        messageType < 0x1_0000 && h <= size && h <= data.Length && size < 0x1_0000_0000
      modifies data
      ensures data[..BaseHeaderSize(messageType)] == HeaderBytes(messageType, size)
      ensures forall k :: BaseHeaderSize(messageType) <= k < data.Length ==> data[k] == old(data[k])
    {
      var header := HeaderBytes(messageType, size);
      forall k | 0 <= k < |header| { data[k] := header[k]; }
    }

    /** Puts a new size into the header, leaving its other fields. */
    method UpdateNumBytes(ghost was: nat)
      requires var h := BaseHeaderSize(messageType);
        messageType < 0x1_0000 && h <= data.Length && size < 0x1_0000_0000 && was < 0x1_0000_0000
        && data[..h] == HeaderBytes(messageType, was)
      modifies data
      ensures data[..BaseHeaderSize(messageType)] == HeaderBytes(messageType, size)
      ensures forall k :: BaseHeaderSize(messageType) <= k < data.Length ==> data[k] == old(data[k])
    {
      var field := Put32(size);
      forall k | 0 <= k < 4 { data[k] := field[k]; }
      SizeIsFirst(messageType, was);
      SizeIsFirst(messageType, size);
      ghost var h := BaseHeaderSize(messageType);
      assert data[..h] == field + old(data[..h])[4..];
    }

    method Write(at: nat, bytes: Bytes)
      requires Valid() && LegalOp(Value(), WritePayload(at, bytes))
      modifies this`written, data
      ensures Valid() && Value() == Apply(old(Value()), WritePayload(at, bytes))
    {
      hide HeaderBytes;
      var h := BaseHeaderSize(messageType);
      forall k | 0 <= k < |bytes| { data[h + at + k] := bytes[k]; }
      written := written + BytesAt(at, bytes);
      assert data[..h] == old(data[..h]);
      assert forall k <- written :: k < data.Length - h && data[h + k] == written[k];
    }

    /** `ExtendPayload` of either kind, in place; false if a trivial message is out of space. */
    method TryExtend(n: nat, grown: nat, junk: Bytes) returns (ok: bool)
      requires Valid() && LegalOp(Value(), ExtendPayload(n, grown))
      requires |junk| >= n + grown + HEADER_SIZE
      modifies this, data
      ensures Valid() && (ok <==> !trivial || BaseHeaderSize(messageType) + n <= INTERNAL_CAPACITY)
      ensures data == old(data) || fresh(data)
      ensures Value() == if ok then Apply(old(Value()), ExtendPayload(n, grown)) else old(Value())
    {
      hide HeaderBytes;
      var h := BaseHeaderSize(messageType);
      if trivial {
        if n + h > INTERNAL_CAPACITY { return false; }
      } else if n > data.Length - h {
        var newCapacity := (if grown > n then grown else n) + h;
        var old_ := data;
        var copy := new byte[newCapacity](k requires 0 <= k < |junk| => junk[k]);
        forall k | 0 <= k < old_.Length { copy[k] := old_[k]; }
        data := copy;
      }
      assert data[..h] == old(data[..h]);
      size := h + n;
      UpdateNumBytes(old(size));
      return true;
    }
  }

  /** `Message::ExtendPayload`: a trivial message that is out of space becomes a complex one. */
  method Extend(m: MessageBuffer, n: nat, grown: nat, junk: Bytes) returns (r: MessageBuffer)
    requires m.Valid() && LegalOp(m.Value(), ExtendPayload(n, grown))
    requires |junk| >= n + grown + HEADER_SIZE
    modifies m, m.data
    ensures r.Valid() && r.Value() == Apply(old(m.Value()), ExtendPayload(n, grown))
    ensures (r == m || fresh(r)) && (r.data == old(m.data) || fresh(r.data))
  {
    hide HeaderBytes;
    var done := m.TryExtend(n, grown, junk);
    if done { return m; }
    var h := BaseHeaderSize(m.messageType);
    var capacity := m.Capacity();
    r := new MessageBuffer.Complex(n, n, m.messageType, junk);
    forall k | 0 <= k < capacity { r.data[h + k] := m.data[h + k]; }
    r.written := m.written;
    assert r.data[..h] == HeaderBytes(r.messageType, r.size);
  }

  /** `Message::CreateMessage` for a message without handles. */
  method Create(useTrivial: bool, capacity: nat, payloadSize: nat, messageType: nat, junk: Bytes)
    returns (r: MessageBuffer)
    requires messageType < 0x1_0000 && payloadSize <= capacity && payloadSize + HEADER_SIZE < 0x1_0000_0000
    requires |junk| >= capacity + HEADER_SIZE
    ensures r.Valid() && fresh(r) && fresh(r.data) && r.Value() == Draft(messageType, payloadSize, map[])
    ensures r.trivial <==> useTrivial && capacity + HEADER_SIZE <= INTERNAL_CAPACITY
  {
    if useTrivial && capacity + HEADER_SIZE <= INTERNAL_CAPACITY {
      r := new MessageBuffer.Trivial(payloadSize, messageType);
    } else {
      r := new MessageBuffer.Complex(capacity, payloadSize, messageType, junk);
    }
  }

  /**
   Trivial messages cannot be told from complex ones on the wire: whatever the flag, a message built by
   any legal sequence of writes and extensions carries the draft that the sequence determines.
   */
  method Build(useTrivial: bool, capacity: nat, payloadSize: nat, messageType: nat, ops: seq<Op>, junk: seq<Bytes>)
    returns (r: MessageBuffer)
    requires messageType < 0x1_0000 && payloadSize <= capacity && payloadSize + HEADER_SIZE < 0x1_0000_0000
    requires Legal(Draft(messageType, payloadSize, map[]), ops)
    requires |junk| == |ops| + 1 && |junk[0]| >= capacity + HEADER_SIZE
    requires forall i :: 0 <= i < |ops| && ops[i].ExtendPayload? ==>
        |junk[i + 1]| >= ops[i].newSize + ops[i].grown + HEADER_SIZE
    ensures r.Valid() && fresh(r)
    ensures r.Value() == ApplyAll(Draft(messageType, payloadSize, map[]), ops)
    ensures Complete(r.Value()) ==> r.Wire() == Encode(Message(messageType, Payload(r.Value()), []))
  {
    ghost var start := Draft(messageType, payloadSize, map[]);
    r := Create(useTrivial, capacity, payloadSize, messageType, junk[0]);
    var i := 0;
    while i < |ops|
      invariant 0 <= i <= |ops| && r.Valid() && fresh(r) && fresh(r.data)
      invariant Legal(r.Value(), ops[i..]) && ApplyAll(start, ops) == ApplyAll(r.Value(), ops[i..])
      invariant r.messageType == messageType
    {
      assert ops[i..][0] == ops[i] && ops[i..][1..] == ops[i + 1..];
      match ops[i] {
        case WritePayload(at, bytes) => r.Write(at, bytes);
        case ExtendPayload(n, grown) => r := Extend(r, n, grown, junk[i + 1]);
      }
      i := i + 1;
    }
    if Complete(r.Value()) { CarriesComplete(r.Wire(), r.Value()); }
  }

  // ---- reconstruction from bytes ----

  /** How a platform stores handles in the extra header. */
  datatype Layout = Windows | Fuchsia | Apple | NoExtra

  predicate Aligned(n: nat) { n % ALIGNMENT == 0 }

  function EntryBytes(layout: Layout, maxHandles: nat): nat {
    match layout
    case Windows => 4 * maxHandles
    case Fuchsia => maxHandles
    case Apple => if maxHandles == 0 then 0 else 2 + maxHandles
    case NoExtra => 0
  }

  /** The extra header that `ComplexMessage` reserves. */
  function ExtraHeaderSize(layout: Layout, maxHandles: nat): (r: nat)
    ensures Aligned(r) && EntryBytes(layout, maxHandles) <= r < EntryBytes(layout, maxHandles) + ALIGNMENT
  {
    var n := EntryBytes(layout, maxHandles);
    if n % ALIGNMENT == 0 then n else n + (ALIGNMENT - n % ALIGNMENT)
  }

  /** The room for handles that `Deserialize` finds in an extra header, unless it refuses it. */
  function HandleRoom(layout: Layout, extra: nat): Option<nat> {
    if !Aligned(extra) then None
    else
      match layout
      case Windows => Some(extra / 4)
      case Fuchsia => Some(extra)
      case Apple => if extra == 0 then Some(0) else if extra < 2 then None else Some(extra - 2)
      case NoExtra => if extra > 0 then None else Some(0)
  }

  /** An aligned size is a whole number of 32-bit entries. */
  lemma AlignedIsWhole(n: nat)
    requires Aligned(n)
    ensures 4 * (n / 4) == n
  {
    var k := n / ALIGNMENT;
    assert n == 4 * (2 * k);
  }

  /** The entries that fit an accepted extra header fill it. */
  lemma RoomFillsHeader(layout: Layout, extra: nat)
    requires HandleRoom(layout, extra).Some?
    ensures Aligned(extra) && EntryBytes(layout, HandleRoom(layout, extra).value) == extra
  {
    if layout.Windows? {
      AlignedIsWhole(extra);
    }
  }

  /** Any extra header that is accepted is rebuilt with exactly its size. */
  lemma ExtraHeaderRebuilt(layout: Layout, extra: nat)
    requires HandleRoom(layout, extra).Some?
    ensures ExtraHeaderSize(layout, HandleRoom(layout, extra).value) == extra
  {
    RoomFillsHeader(layout, extra);
    hide HandleRoom, EntryBytes;
  }

  /** The size of the whole header, and the number of handles, of bytes that make a message. */
  datatype Shape = BadShape | Shape(headerSize: nat, numHandles: nat, room: nat)

  /** The checks of `Deserialize`. */
  function Examine(layout: Layout, acceptHandles: bool, data: Bytes): (r: Shape)
    ensures r.Shape? ==> |data| >= 8 && BaseHeaderSize(Field16(data, 6)) <= r.headerSize <= |data|
    ensures r.Shape? ==> Field32(data, 0) == |data| && r.room <= MAX_ATTACHED_HANDLES && r.numHandles <= r.room
    ensures r.Shape? ==> HandleRoom(layout, r.headerSize - BaseHeaderSize(Field16(data, 6))) == Some(r.room)
  {
    if |data| < LEGACY_HEADER_SIZE || Field32(data, 0) != |data| then BadShape
    else
      var legacy := Field16(data, 6) == NORMAL_LEGACY;
      var headerSize := if legacy then LEGACY_HEADER_SIZE else Field16(data, 4);
      if !legacy && (|data| < headerSize || headerSize < HEADER_SIZE) then BadShape
      else
        var room := HandleRoom(layout, headerSize - BaseHeaderSize(Field16(data, 6)));
        var numHandles := if legacy then Field16(data, 4) else Field16(data, 8);
        if room.None? || numHandles > room.value || room.value > MAX_ATTACHED_HANDLES then BadShape
        else if numHandles > 0 && !acceptHandles then BadShape
        else Shape(headerSize, numHandles, room.value)
  }

  /**
   The bytes of the message that `Deserialize` builds: a new message with room for as many handles,
   into which the payload, the extra header and the number of handles are copied.
   */
  function Rebuild(layout: Layout, acceptHandles: bool, data: Bytes): Option<Bytes> {
    var shape := Examine(layout, acceptHandles, data);
    if shape.BadShape? then None
    else
      var messageType := Field16(data, 6);
      var payload := data[shape.headerSize..];
      if messageType == NORMAL_LEGACY then
        Some(Put32(LEGACY_HEADER_SIZE + |payload|) + Put16(shape.numHandles) + Put16(messageType) + payload)
      else
        ExtraHeaderRebuilt(layout, shape.headerSize - HEADER_SIZE);
        var extra := ExtraHeaderSize(layout, shape.room);
        Some(Put32(HEADER_SIZE + extra + |payload|) + Put16(HEADER_SIZE + extra) + Put16(messageType)
             + Put16(shape.numHandles) + [0, 0, 0, 0, 0, 0] + data[HEADER_SIZE..HEADER_SIZE + extra] + payload)
  }

  lemma PutField16(b: Bytes, at: nat)
    requires at + 2 <= |b|
    ensures Put16(Field16(b, at)) == b[at..at + 2]
  {
  }

  lemma PutField32(b: Bytes, at: nat)
    requires at + 4 <= |b|
    ensures Put32(Field32(b, at)) == b[at..at + 4]
  {
    PutField16(b, at);
    PutField16(b, at + 2);
    var lo, hi := Field16(b, at), Field16(b, at + 2);
    assert (lo + 0x1_0000 * hi) % 0x1_0000 == lo && (lo + 0x1_0000 * hi) / 0x1_0000 == hi;
    assert b[at..at + 4] == b[at..at + 2] + b[at + 2..at + 4];
  }

  /** The six bytes of padding that a rebuilt header does not copy. */
  function ClearPadding(data: Bytes): Bytes
    requires |data| >= 8
  {
    if Field16(data, 6) == NORMAL_LEGACY || |data| < HEADER_SIZE then data
    else data[..10] + [0, 0, 0, 0, 0, 0] + data[16..]
  }

  lemma LegacyRebuilt(layout: Layout, acceptHandles: bool, data: Bytes)
    requires Examine(layout, acceptHandles, data).Shape? && Field16(data, 6) == NORMAL_LEGACY
    ensures Rebuild(layout, acceptHandles, data) == Some(data)
  {
    PutField32(data, 0);
    PutField16(data, 4);
    PutField16(data, 6);
    hide Put16, Put32, Field32;
    assert data == data[0..4] + data[4..6] + data[6..8] + data[8..];
  }

  lemma SplitHeader(data: Bytes, hs: nat)
    requires 16 <= hs <= |data|
    ensures var pad := [0, 0, 0, 0, 0, 0];
      data[..10] + pad + data[16..]
        == data[0..4] + data[4..6] + data[6..8] + data[8..10] + pad + data[16..hs] + data[hs..]
  {
    assert data[..10] == data[0..4] + data[4..6] + data[6..8] + data[8..10];
    assert data[16..] == data[16..hs] + data[hs..];
  }

  /** On every layout, an accepted message is rebuilt byte for byte, but for the padding of its header. */
  lemma RebuildIsExact(layout: Layout, acceptHandles: bool, data: Bytes)
    requires Examine(layout, acceptHandles, data).Shape?
    ensures Rebuild(layout, acceptHandles, data) == Some(ClearPadding(data))
  {
    if Field16(data, 6) == NORMAL_LEGACY {
      LegacyRebuilt(layout, acceptHandles, data);
    } else {
      var hs := Examine(layout, acceptHandles, data).headerSize;
      PutField32(data, 0);
      PutField16(data, 4);
      PutField16(data, 6);
      PutField16(data, 8);
      ExtraHeaderRebuilt(layout, hs - HEADER_SIZE);
      SplitHeader(data, hs);
      hide Put16, Put32, Field32, ExtraHeaderSize, HandleRoom;
    }
  }

  /** A message without handles survives the journey on any layout, whether or not handles are accepted. */
  lemma RebuildEncoded(layout: Layout, acceptHandles: bool, m: Message)
    requires Sendable(m) && m.handles == []
    ensures var shape := Examine(layout, acceptHandles, Encode(m));
      && shape == Shape(BaseHeaderSize(m.messageType), 0, 0)
      && Encode(m)[shape.headerSize..] == m.payload
      && Rebuild(layout, acceptHandles, Encode(m)) == Some(Encode(m))
  {
    hide Put16, Put32, Encode, Rebuild, Field32;
    var e := Encode(m);
    FieldsOfEncoding(m, []);
    assert e + [] == e;
    EncodingAroundPadding(m);
    RebuildIsExact(layout, acceptHandles, e);
  }

  lemma EncodingAroundPadding(m: Message)
    requires Sendable(m)
    ensures |Encode(m)| == BaseHeaderSize(m.messageType) + |m.payload|
    ensures Encode(m)[BaseHeaderSize(m.messageType)..] == m.payload
    ensures m.messageType != NORMAL_LEGACY ==>
      Encode(m) == Encode(m)[..10] + [0, 0, 0, 0, 0, 0] + Encode(m)[16..]
  {
    hide Put16, Put32;
    var e := Encode(m);
    if m.messageType != NORMAL_LEGACY {
      assert e[10..16] == [0, 0, 0, 0, 0, 0];
      assert e == e[..10] + e[10..16] + e[16..];
    }
  }

  // ---- messages built with room for handles ----

  /** A message with a full header and room for `maxHandles` handles, whose sizes fit the fields. */
  predicate Buildable(layout: Layout, m: Message, maxHandles: nat, entries: Bytes) {
    && m.messageType != NORMAL_LEGACY && m.messageType < 0x1_0000 && |m.handles| <= maxHandles <= MAX_ATTACHED_HANDLES
    && |entries| == ExtraHeaderSize(layout, maxHandles)
    && HEADER_SIZE + |entries| + |m.payload| < 0x1_0000_0000
  }

  lemma EntriesFit(layout: Layout, maxHandles: nat)
    requires maxHandles <= MAX_ATTACHED_HANDLES
    ensures HEADER_SIZE + ExtraHeaderSize(layout, maxHandles) < 0x1_0000
  {
    hide ExtraHeaderSize;
  }

  /** Its bytes, with `entries` in the extra header. */
  function Built(layout: Layout, m: Message, maxHandles: nat, entries: Bytes): (r: Bytes)
    requires Buildable(layout, m, maxHandles, entries)
    ensures |r| == HEADER_SIZE + |entries| + |m.payload|
  {
    EntriesFit(layout, maxHandles);
    Put32(HEADER_SIZE + |entries| + |m.payload|) + Put16(HEADER_SIZE + |entries|) + Put16(m.messageType)
      + Put16(|m.handles|) + [0, 0, 0, 0, 0, 0] + entries + m.payload
  }

  lemma FieldsOfBuilt(layout: Layout, m: Message, maxHandles: nat, entries: Bytes)
    requires Buildable(layout, m, maxHandles, entries)
    ensures var b := Built(layout, m, maxHandles, entries);
      && Field32(b, 0) == |b| && Field16(b, 4) == HEADER_SIZE + |entries| && Field16(b, 6) == m.messageType
      && Field16(b, 8) == |m.handles| && b[HEADER_SIZE + |entries|..] == m.payload
      && b == b[..10] + [0, 0, 0, 0, 0, 0] + b[16..]
  {
    EntriesFit(layout, maxHandles);
    hide ExtraHeaderSize, Put16, Put32;
    var b := Built(layout, m, maxHandles, entries);
    var (size, head) := (Put32(|b|), Put16(HEADER_SIZE + |entries|));
    var (kind, count) := (Put16(m.messageType), Put16(|m.handles|));
    assert b[0] == size[0] && b[1] == size[1] && b[2] == size[2] && b[3] == size[3];
    assert b[4] == head[0] && b[5] == head[1] && b[6] == kind[0] && b[7] == kind[1];
    assert b[8] == count[0] && b[9] == count[1];
    assert b[10..16] == [0, 0, 0, 0, 0, 0];
    assert b == b[..10] + b[10..16] + b[16..];
  }

  /** The room that is found: at least what was asked for, and too much only on Apple for the last two counts. */
  lemma RoomFound(layout: Layout, maxHandles: nat)
    requires maxHandles <= MAX_ATTACHED_HANDLES
    ensures var room := HandleRoom(layout, ExtraHeaderSize(layout, maxHandles));
      && room.Some? && (!layout.NoExtra? ==> maxHandles <= room.value) && (layout.NoExtra? ==> room.value == 0)
      && (room.value > MAX_ATTACHED_HANDLES <==> layout.Apple? && maxHandles > 62)
  {
    var r := ExtraHeaderSize(layout, maxHandles);
    hide ExtraHeaderSize;
    var q := r / ALIGNMENT;
    assert r == 8 * q;
    if layout.Windows? {
      AlignedIsWhole(r);
      assert r / 4 == 2 * q;
    }
  }

  /**
   A message built with room for handles is accepted exactly when its handles, if it has any, are accepted and
   have an extra header to travel in, and it was not built on Apple with room for 63 or 64 handles, which are
   rounded up beyond the limit.  It is then found to have its own shape and is rebuilt byte for byte.
   */
  lemma BuiltIsAcceptedIff(layout: Layout, acceptHandles: bool, m: Message, maxHandles: nat, entries: Bytes)
    requires Buildable(layout, m, maxHandles, entries)
    ensures var data := Built(layout, m, maxHandles, entries);
      var shape := Examine(layout, acceptHandles, data);
      && (shape.Shape? <==>
            && (m.handles != [] ==> acceptHandles && !layout.NoExtra?) && !(layout.Apple? && maxHandles > 62))
      && (shape.Shape? ==>
            && shape.headerSize == HEADER_SIZE + |entries| && shape.numHandles == |m.handles|
            && data[shape.headerSize..] == m.payload && Rebuild(layout, acceptHandles, data) == Some(data))
  {
    FieldsOfBuilt(layout, m, maxHandles, entries);
    RoomFound(layout, maxHandles);
    hide Built, ExtraHeaderSize, HandleRoom, Put16, Put32, Field32, Field16, Rebuild;
    var data := Built(layout, m, maxHandles, entries);
    if Examine(layout, acceptHandles, data).Shape? { RebuildIsExact(layout, acceptHandles, data); }
  }

  // ---- what Windows does with the handles ----

  /** The first `n` handle entries of a message. */
  function EntriesOf(data: Bytes, n: nat): (r: seq<nat>)
    requires HEADER_SIZE + 4 * n <= |data|
    ensures |r| == n && forall i :: 0 <= i < n ==> r[i] < 0x1_0000_0000
  {
    seq(n, i requires 0 <= i < n => Field32(data, HEADER_SIZE + 4 * i))
  }

  function EntryTable(entries: seq<nat>): (r: Bytes)
    requires forall i :: 0 <= i < |entries| ==> entries[i] < 0x1_0000_0000
    ensures |r| == 4 * |entries|
  {
    if entries == [] then [] else EntryTable(entries[..|entries| - 1]) + Put32(entries[|entries| - 1])
  }

  function ZeroBytes(n: nat): (r: Bytes)
    ensures |r| == n
  {
    seq(n, _ => 0)
  }

  /** Bytes `from` to before `to` cleared. */
  function Cleared(data: Bytes, from: nat, to: nat): Bytes
    requires from <= to <= |data|
  {
    data[..from] + ZeroBytes(to - from) + data[to..]
  }

  /**
   The end of `Deserialize`.  On Windows pseudo-handles are refused, and `SetHandles` clears the entries and
   writes back the handles, which are those of the sender or `taken` over from its process.
   */
  function Deserialized(
    layout: Layout, acceptHandles: bool, data: Bytes, pseudo: set<nat>, taken: seq<nat>): Option<Bytes>
    requires forall i :: 0 <= i < |taken| ==> taken[i] < 0x1_0000_0000
    requires var shape := Examine(layout, acceptHandles, data); shape.Shape? ==> |taken| == shape.numHandles
  {
    var shape := Examine(layout, acceptHandles, data);
    var rebuilt := Rebuild(layout, acceptHandles, data);
    if rebuilt.None? || !layout.Windows? || shape.room == 0 then rebuilt
    else
      WindowsRoom(acceptHandles, data);
      if exists i :: 0 <= i < shape.numHandles && EntriesOf(data, shape.numHandles)[i] in pseudo then None
      else
        var cleared := Cleared(rebuilt.value, HEADER_SIZE, shape.headerSize);
        Some(cleared[..HEADER_SIZE] + EntryTable(taken) + cleared[HEADER_SIZE + 4 * |taken|..])
  }

  lemma WindowsRoom(acceptHandles: bool, data: Bytes)
    requires var shape := Examine(Windows, acceptHandles, data); shape.Shape? && shape.room > 0
    ensures var shape := Examine(Windows, acceptHandles, data);
      && Field16(data, 6) != NORMAL_LEGACY && HEADER_SIZE + 4 * shape.numHandles <= shape.headerSize <= |data|
      && Rebuild(Windows, acceptHandles, data) == Some(ClearPadding(data)) && |ClearPadding(data)| == |data|
  {
    RebuildIsExact(Windows, acceptHandles, data);
  }

  lemma {:induction false} EntriesRoundTrip(data: Bytes, n: nat)
    requires HEADER_SIZE + 4 * n <= |data|
    ensures EntryTable(EntriesOf(data, n)) == data[HEADER_SIZE..HEADER_SIZE + 4 * n]
  {
    if n > 0 {
      EntriesRoundTrip(data, n - 1);
      var entries := EntriesOf(data, n);
      assert entries[..n - 1] == EntriesOf(data, n - 1);
      var at := HEADER_SIZE + 4 * (n - 1);
      PutField32(data, at);
      assert data[HEADER_SIZE..at] + data[at..at + 4] == data[HEADER_SIZE..at + 4];
    }
  }

  /**
   On Windows a message with room for handles comes back, when no entry is a pseudo-handle and the handles keep
   their values, byte for byte but for the padding of its header and the entries beyond its last handle,
   which are cleared; any pseudo-handle among them makes it refused.
   */
  lemma DeserializedOnWindows(acceptHandles: bool, data: Bytes, pseudo: set<nat>)
    requires var shape := Examine(Windows, acceptHandles, data);
      shape.Shape? && shape.room > 0 && HEADER_SIZE + 4 * shape.numHandles <= |data|
    ensures var shape := Examine(Windows, acceptHandles, data);
      var n := shape.numHandles;
      var entries := EntriesOf(data, n);
      && HEADER_SIZE + 4 * n <= shape.headerSize <= |ClearPadding(data)|
      && Deserialized(Windows, acceptHandles, data, pseudo, entries) ==
           (if exists i :: 0 <= i < n && entries[i] in pseudo then None
            else Some(Cleared(ClearPadding(data), HEADER_SIZE + 4 * n, shape.headerSize)))
  {
    hide Examine, Rebuild, ClearPadding, Put32, Field32;
    var shape := Examine(Windows, acceptHandles, data);
    var n := shape.numHandles;
    WindowsRoom(acceptHandles, data);
    EntriesRoundTrip(data, n);
    PaddingLeavesEntries(data, n);
    SpliceEntries(ClearPadding(data), 4 * n, shape.headerSize);
  }

  lemma PaddingLeavesEntries(data: Bytes, n: nat)
    requires HEADER_SIZE + 4 * n <= |data|
    ensures |ClearPadding(data)| == |data|
    ensures ClearPadding(data)[HEADER_SIZE..HEADER_SIZE + 4 * n] == data[HEADER_SIZE..HEADER_SIZE + 4 * n]
  {
  }

  lemma SpliceEntries(b: Bytes, n: nat, to: nat)
    requires HEADER_SIZE + n <= to <= |b|
    ensures var cleared := Cleared(b, HEADER_SIZE, to);
      && |cleared| == |b|
      && cleared[..HEADER_SIZE] + b[HEADER_SIZE..HEADER_SIZE + n] + cleared[HEADER_SIZE + n..]
          == Cleared(b, HEADER_SIZE + n, to)
  {
    var cleared := Cleared(b, HEADER_SIZE, to);
    assert cleared[..HEADER_SIZE] == b[..HEADER_SIZE];
    assert cleared[HEADER_SIZE + n..] == ZeroBytes(to - HEADER_SIZE - n) + b[to..];
    assert b[..HEADER_SIZE] + b[HEADER_SIZE..HEADER_SIZE + n] == b[..HEADER_SIZE + n];
  }

  /** Elsewhere, and without room for handles, nothing is changed after the copying. */
  lemma DeserializedElsewhere(layout: Layout, acceptHandles: bool, data: Bytes, pseudo: set<nat>, taken: seq<nat>)
    requires forall i :: 0 <= i < |taken| ==> taken[i] < 0x1_0000_0000
    requires var shape := Examine(layout, acceptHandles, data);
      shape.Shape? && |taken| == shape.numHandles && (!layout.Windows? || shape.room == 0)
    ensures Deserialized(layout, acceptHandles, data, pseudo, taken) == Some(ClearPadding(data))
  {
    RebuildIsExact(layout, acceptHandles, data);
  }
}
