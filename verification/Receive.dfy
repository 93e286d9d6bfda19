/**
 The receive side of a channel: the read buffer that grows, shrinks and realigns underneath the
 framing parser, and the loop that dispatches every complete message.
 */
module Receive {
  import opened Basics
  import opened RingMath
  import opened Messages
  import opened Framing

  const READ_BUFFER_SIZE: nat := 4096
  const MAX_UNUSED_READ_BUFFER_CAPACITY: nat := 4096
  const MESSAGE_ALIGNMENT: nat := 8

  /** `[discarded bytes][occupied bytes][unoccupied bytes]` in one allocation. */
  class ReadBuffer {
    var data: array<byte>
    var numDiscarded: nat
    var numOccupied: nat     // counts the discarded bytes too

    ghost predicate Valid()
      reads this
    {
      && numDiscarded <= numOccupied <= data.Length
      && READ_BUFFER_SIZE <= data.Length && numDiscarded <= MAX_UNUSED_READ_BUFFER_CAPACITY
    }

    /** The byte queue this buffer stands for. */
    ghost function Contents(): Bytes
      requires Valid()
      reads this, data
    {
      data[numDiscarded..numOccupied]
    }

    constructor ()
      ensures Valid() && Contents() == [] && fresh(data)
    {
      data := new byte[READ_BUFFER_SIZE];
      numDiscarded, numOccupied := 0, 0;
    }

    /** Makes room for `n` more bytes; `grown` is the size the growth factor asks for. */
    method Reserve(n: nat, grown: nat)
      requires Valid()
      modifies this
      ensures Valid() && Contents() == old(Contents())
      ensures numOccupied + n <= data.Length && (data == old(data) || fresh(data))
      ensures numOccupied == old(numOccupied) && numDiscarded == old(numDiscarded)
    {
      if numOccupied + n > data.Length {
        var newData := new byte[Max(grown, numOccupied + n)];
        forall i | 0 <= i < numOccupied { newData[i] := data[i]; }
        data := newData;
      }
    }

    /** The kernel receives `bytes` into space reserved for them; none of it is claimed yet. */
    method ReceiveInto(bytes: Bytes, grown: nat)
      requires Valid()
      modifies this, data
      ensures Valid() && Contents() == old(Contents()) && (data == old(data) || fresh(data))
      ensures numOccupied + |bytes| <= data.Length && data[numOccupied..numOccupied + |bytes|] == bytes
    {
      Reserve(|bytes|, grown);
      Store(bytes);
    }

    /** Fills the first unoccupied bytes and leaves the others alone. */
    method Store(bytes: Bytes)
      requires Valid() && numOccupied + |bytes| <= data.Length
      modifies data
      ensures Valid() && Contents() == old(Contents())
      ensures data[numOccupied..numOccupied + |bytes|] == bytes
    {
      forall i | 0 <= i < |bytes| { data[numOccupied + i] := bytes[i]; }
      assert Contents() == old(Contents());
      assert data[numOccupied..numOccupied + |bytes|] == bytes by {
        forall i | 0 <= i < |bytes| ensures data[numOccupied..numOccupied + |bytes|][i] == bytes[i] {
        }
      }
    }

    /** Marks the first `n` unoccupied bytes as occupied. */
    method Claim(n: nat)
      requires Valid() && numOccupied + n <= data.Length
      modifies `numOccupied
      ensures Valid() && Contents() == old(Contents()) + old(data[numOccupied..numOccupied + n])
    {
      numOccupied := numOccupied + n;
    }

    /** Forgets the first `n` bytes of the queue, moving or shrinking the storage when worthwhile. */
    method Discard(n: nat)
      requires Valid() && n <= |Contents()|
      modifies this
      ensures Valid() && Contents() == old(Contents())[n..] && (data == old(data) || fresh(data))
      ensures Contents() == [] ==> data.Length <= Max(MAX_UNUSED_READ_BUFFER_CAPACITY, READ_BUFFER_SIZE)
    {
      numDiscarded := numDiscarded + n;
      if numDiscarded == numOccupied {
        numDiscarded, numOccupied := 0, 0;
      }
      if numDiscarded > MAX_UNUSED_READ_BUFFER_CAPACITY {
        var preserved := numOccupied - numDiscarded;
        var newData := new byte[Max(preserved, READ_BUFFER_SIZE)];
        forall i | 0 <= i < preserved { newData[i] := data[numDiscarded + i]; }
        data := newData;
        numDiscarded, numOccupied := 0, preserved;
      }
      if numOccupied == 0 && data.Length > MAX_UNUSED_READ_BUFFER_CAPACITY {
        data := new byte[MAX_UNUSED_READ_BUFFER_CAPACITY];
      }
    }

    /** Moves the occupied bytes to the front of the storage. */
    method Realign()
      requires Valid()
      modifies this, data
      ensures Valid() && Contents() == old(Contents()) && numDiscarded == 0 && data == old(data)
    {
      var n := numOccupied - numDiscarded;
      forall i | 0 <= i < n { data[i] := data[numDiscarded + i]; }
      numDiscarded, numOccupied := 0, n;
    }
  }

  /** What a channel holds between reads. */
  datatype Receiver = Receiver(buffered: Bytes, handles: seq<Handle>, dispatched: seq<Message>, ok: bool)

  /** One read: bytes and handles arrive, and everything complete is dispatched.  A failed channel reads no more. */
  function ReceiveChunk(cfg: Config, r: Receiver, bytes: Bytes, handles: seq<Handle>): Receiver {
    if !r.ok then r
    else
      var p := Parse(cfg, r.buffered + bytes, r.handles + handles);
      if p.ok then Receiver(p.rest, p.restHandles, r.dispatched + p.messages, true)
      else r.(dispatched := r.dispatched + p.messages, ok := false)
  }

  /** How many bytes the next read should ask for; zero leaves it to the caller. */
  function ReadSizeHint(cfg: Config, rest: Bytes, handles: seq<Handle>, dispatchedAny: bool): nat {
    if |rest| >= 8 && TryDispatch(cfg, rest, handles).NotEnoughData? then TryDispatch(cfg, rest, handles).missing
    else if dispatchedAny then 0 else READ_BUFFER_SIZE
  }

  /** The start of a message is there, with a size that makes sense, but not all of it. */
  predicate Incomplete(cfg: Config, rest: Bytes) {
    |rest| >= 8 && !BadSize(cfg, rest) && |rest| < MessageSize(cfg, rest)
  }

  lemma HintIsMissing(cfg: Config, rest: Bytes, handles: seq<Handle>, any: bool)
    ensures Incomplete(cfg, rest) ==> |rest| + ReadSizeHint(cfg, rest, handles, any) == MessageSize(cfg, rest)
    ensures !Incomplete(cfg, rest) ==> ReadSizeHint(cfg, rest, handles, any) == if any then 0 else READ_BUFFER_SIZE
  {
  }

  lemma PrependNothing(p: Parsed)
    ensures Prepend([], p) == p
  {
    assert [] + p.messages == p.messages;
  }

  lemma ParsePastDispatch(cfg: Config, done: seq<Message>, bytes: Bytes, handles: seq<Handle>)
    requires |bytes| >= 8 && TryDispatch(cfg, bytes, handles).Dispatched?
    ensures var d := TryDispatch(cfg, bytes, handles);
      Prepend(done, Parse(cfg, bytes, handles))
        == Prepend(done + [d.message], Parse(cfg, bytes[d.size..], handles[|d.message.handles|..]))
  {
    var d := TryDispatch(cfg, bytes, handles);
    var rest := Parse(cfg, bytes[d.size..], handles[|d.message.handles|..]);
    assert done + ([d.message] + rest.messages) == (done + [d.message]) + rest.messages;
  }

  lemma ParseAtStop(cfg: Config, done: seq<Message>, bytes: Bytes, handles: seq<Handle>)
    requires |bytes| < 8 || !TryDispatch(cfg, bytes, handles).Dispatched?
    ensures Prepend(done, Parse(cfg, bytes, handles))
         == Parsed(done, bytes, handles, |bytes| < 8 || !TryDispatch(cfg, bytes, handles).Error?)
  {
    assert done + [] == done;
  }

  class ReceivingChannel {
    const cfg: Config
    const buffer: ReadBuffer
    var incomingFds: seq<Handle>
    var dispatched: seq<Message>
    var failed: bool

    ghost predicate Valid()
      reads this, buffer
    {
      buffer.Valid()
    }

    ghost function State(): Receiver
      requires Valid()
      reads this, buffer, buffer.data
    {
      Receiver(buffer.Contents(), incomingFds, dispatched, !failed)
    }

    constructor (cfg: Config)
      ensures Valid() && this.cfg == cfg && fresh(buffer) && fresh(buffer.data)
      ensures State() == Receiver([], [], [], true)
    {
      this.cfg := cfg;
      buffer := new ReadBuffer();
      incomingFds, dispatched, failed := [], [], false;
    }

    /** Hands on the first message of the buffer, which starts aligned, if it is complete and its handles are here. */
    method TryDispatchMessage() returns (d: Dispatch)
      requires Valid() && |buffer.Contents()| >= LEGACY_HEADER_SIZE
      requires buffer.numDiscarded % MESSAGE_ALIGNMENT == 0
      modifies `incomingFds, `dispatched
      ensures d == TryDispatch(cfg, buffer.Contents(), old(incomingFds))
      ensures d.Dispatched? ==>
        incomingFds == old(incomingFds)[|d.message.handles|..] && dispatched == old(dispatched) + [d.message]
      ensures !d.Dispatched? ==> incomingFds == old(incomingFds) && dispatched == old(dispatched)
    {
      d := TryDispatch(cfg, buffer.data[buffer.numDiscarded..buffer.numOccupied], incomingFds);
      if d.Dispatched? {
        incomingFds := incomingFds[|d.message.handles|..];
        dispatched := dispatched + [d.message];
      }
    }

    /** Dispatches the first message from an aligned address, and forgets its bytes. */
    method DispatchFirst() returns (d: Dispatch)
      requires Valid() && |buffer.Contents()| >= LEGACY_HEADER_SIZE
      modifies `incomingFds, `dispatched, buffer, buffer.data
      ensures Valid() && (buffer.data == old(buffer.data) || fresh(buffer.data))
      ensures d == TryDispatch(cfg, old(buffer.Contents()), old(incomingFds))
      ensures d.Dispatched? ==>
        && buffer.Contents() == old(buffer.Contents())[d.size..]
        && incomingFds == old(incomingFds)[|d.message.handles|..] && dispatched == old(dispatched) + [d.message]
      ensures !d.Dispatched? ==>
        buffer.Contents() == old(buffer.Contents()) && incomingFds == old(incomingFds) && dispatched == old(dispatched)
    {
      hide TryDispatch;
      if buffer.numDiscarded % MESSAGE_ALIGNMENT != 0 {
        buffer.Realign();
      }
      d := TryDispatchMessage();
      if d.Dispatched? {
        buffer.Discard(d.size);
      }
    }

    /** Dispatches from the buffer while whole messages are there. */
    method DispatchBuffered() returns (ok: bool, nextReadSizeHint: nat)
      requires Valid()
      modifies `incomingFds, `dispatched, buffer, buffer.data
      ensures Valid() && (buffer.data == old(buffer.data) || fresh(buffer.data))
      ensures var p := Parse(cfg, old(buffer.Contents()), old(incomingFds));
        && ok == p.ok && dispatched == old(dispatched) + p.messages
        && (ok ==> buffer.Contents() == p.rest && incomingFds == p.restHandles
                   && nextReadSizeHint == ReadSizeHint(cfg, p.rest, p.restHandles, p.messages != []))
    {
      hide TryDispatch, Parse, Prepend;
      nextReadSizeHint := READ_BUFFER_SIZE;
      ghost var whole := Parse(cfg, buffer.Contents(), incomingFds);
      PrependNothing(whole);
      ghost var done: seq<Message> := [];
      while buffer.numOccupied - buffer.numDiscarded >= LEGACY_HEADER_SIZE
        invariant Valid() && (buffer.data == old(buffer.data) || fresh(buffer.data))
        invariant dispatched == old(dispatched) + done
        invariant whole == Prepend(done, Parse(cfg, buffer.Contents(), incomingFds))
        invariant nextReadSizeHint == if done == [] then READ_BUFFER_SIZE else 0
        decreases |buffer.Contents()|
      {
        ghost var contents, fds := buffer.Contents(), incomingFds;
        var d := DispatchFirst();
        if !d.Dispatched? {
          ParseAtStop(cfg, done, contents, fds);
          return !d.Error?, if d.NotEnoughData? then d.missing else nextReadSizeHint;
        }
        ParsePastDispatch(cfg, done, contents, fds);
        done := done + [d.message];
        nextReadSizeHint := 0;
      }
      ParseAtStop(cfg, done, buffer.Contents(), incomingFds);
      return true, nextReadSizeHint;
    }

    /** `bytesRead` bytes were received into the space reserved behind the buffered ones. */
    method OnReadComplete(bytesRead: nat) returns (ok: bool, nextReadSizeHint: nat)
      requires Valid() && buffer.numOccupied + bytesRead <= buffer.data.Length
      modifies `incomingFds, `dispatched, buffer, buffer.data
      ensures Valid() && (buffer.data == old(buffer.data) || fresh(buffer.data))
      ensures var p := Parse(cfg,
          old(buffer.Contents() + buffer.data[buffer.numOccupied..buffer.numOccupied + bytesRead]),
                             old(incomingFds));
        && ok == p.ok && dispatched == old(dispatched) + p.messages
        && (ok ==> buffer.Contents() == p.rest && incomingFds == p.restHandles
                   && nextReadSizeHint == ReadSizeHint(cfg, p.rest, p.restHandles, p.messages != []))
      ensures ok && Incomplete(cfg, buffer.Contents()) ==>
        |buffer.Contents()| + nextReadSizeHint == MessageSize(cfg, buffer.Contents())
      ensures ok && !Incomplete(cfg, buffer.Contents()) ==>
        nextReadSizeHint == if dispatched == old(dispatched) then READ_BUFFER_SIZE else 0
    {
      hide Parse, ReadSizeHint;
      buffer.Claim(bytesRead);
      ok, nextReadSizeHint := DispatchBuffered();
      HintIsMissing(cfg, buffer.Contents(), incomingFds, dispatched != old(dispatched));
    }

    /** One turn of the socket's read loop: the kernel fills the reserved space and passes handles beside it. */
    method OnSocketReadable(bytes: Bytes, fds: seq<Handle>, grown: nat)
      requires Valid() && !failed
      modifies this, buffer, buffer.data
      ensures Valid() && (buffer.data == old(buffer.data) || fresh(buffer.data))
      ensures var r := ReceiveChunk(cfg, old(State()), bytes, fds);
        && dispatched == r.dispatched && !failed == r.ok
        && (r.ok ==> State() == r)
    {
      hide Parse;
      buffer.ReceiveInto(bytes, grown);
      incomingFds := incomingFds + fds;
      var ok, hint := OnReadComplete(|bytes|);
      failed := !ok;
    }
  }

  // ---- chunking independence ----

  function ReceiveAll(cfg: Config, chunks: seq<(Bytes, seq<Handle>)>): Receiver {
    if chunks == [] then Receiver([], [], [], true)
    else
      var last := |chunks| - 1;
      ReceiveChunk(cfg, ReceiveAll(cfg, chunks[..last]), chunks[last].0, chunks[last].1)
  }

  function AllBytes(chunks: seq<(Bytes, seq<Handle>)>): Bytes {
    if chunks == [] then [] else AllBytes(chunks[..|chunks| - 1]) + chunks[|chunks| - 1].0
  }

  function AllFds(chunks: seq<(Bytes, seq<Handle>)>): seq<Handle> {
    if chunks == [] then [] else AllFds(chunks[..|chunks| - 1]) + chunks[|chunks| - 1].1
  }

  /**
   However the byte stream and the handle stream are split into reads, what has been dispatched after
   any of them is the one-shot parse of everything received so far.
   */
  lemma {:induction false} ChunkingIndependence(cfg: Config, chunks: seq<(Bytes, seq<Handle>)>)
    ensures var r := ReceiveAll(cfg, chunks);
      var p := Parse(cfg, AllBytes(chunks), AllFds(chunks));
      && r.dispatched == p.messages && r.ok == p.ok
      && (r.ok ==> r.buffered == p.rest && r.handles == p.restHandles)
  {
    if chunks != [] {
      var (before, last) := (chunks[..|chunks| - 1], chunks[|chunks| - 1]);
      ChunkingIndependence(cfg, before);
      ParseSplit(cfg, AllBytes(before), last.0, AllFds(before), last.1);
    }
  }

  /** The size hint is exact: with that many more bytes the message is complete, with fewer it is not. */
  lemma HintCompletesMessage(
    cfg: Config, rest: Bytes, handles: seq<Handle>, any: bool, more: Bytes, moreHandles: seq<Handle>)
    requires |rest| >= 8 && TryDispatch(cfg, rest, handles).NotEnoughData?
    ensures TryDispatch(cfg, rest + more, handles + moreHandles).NotEnoughData?
       <==> |more| < ReadSizeHint(cfg, rest, handles, any)
  {
    assert forall i :: 0 <= i < |rest| ==> (rest + more)[i] == rest[i];
    assert BadSize(cfg, rest + more) == BadSize(cfg, rest);
    assert MessageSize(cfg, rest + more) == MessageSize(cfg, rest);
  }
}
