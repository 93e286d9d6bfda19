/**
 The writing half of `ChannelPosix`: direct writes, the queue, the plain flush and the writev flush.
 The socket is an oracle that answers each call with a short or full write, EAGAIN or an error.
 */
module PosixWrite {
  import opened Basics
  import opened RingMath
  import opened Messages
  import opened Framing
  import opened WriteQueue

  const IOV_MAX: nat := 1024

  datatype SysResult = Wrote(n: nat) | WouldBlock | Failed

  /** A socket, the answers it will give, and what the peer will receive. */
  class Socket {
    var script: seq<SysResult>
    ghost var wire: Bytes
    ghost var log: seq<SentHandle>
    ghost var blocked: bool        // the last answer was EAGAIN
    ghost var failed: bool         // some answer was an error

    constructor (script: seq<SysResult>)
      ensures this.script == script && wire == [] && log == [] && !failed
    {
      this.script := script;
      wire, log, blocked, failed := [], [], false, false;
    }

    /** write(2), writev(2) on the concatenation, or sendmsg(2) with `fds`; an exhausted script blocks. */
    method Send(data: Bytes, fds: seq<Handle>) returns (r: SysResult)
      modifies this
      ensures script == if old(script) == [] then [] else old(script)[1..]
      ensures old(script) == [] ==> r.WouldBlock?
      ensures old(script) != [] && !old(script)[0].Wrote? ==> r == old(script)[0]
      ensures old(script) != [] && old(script)[0].Wrote? ==> r == Wrote(Min(old(script)[0].n, |data|))
      ensures r.Wrote? ==>
          r.n <= |data| && wire == old(wire) + data[..r.n] && log == old(log) + Beside(fds, |old(wire)|)
      ensures !r.Wrote? ==> wire == old(wire) && log == old(log)
      ensures blocked == r.WouldBlock? && failed == (old(failed) || r.Failed?)
    {
      if script == [] {
        blocked := true;
        return WouldBlock;
      }
      r := script[0];
      script := script[1..];
      if r.Wrote? {
        r := Wrote(Min(r.n, |data|));
        log := log + Beside(fds, |wire|);
        wire := wire + data[..r.n];
      }
      blocked, failed := r.WouldBlock?, failed || r.Failed?;
    }
  }

  /** The first answer lets all of `n` bytes through. */
  predicate TakesAll(script: seq<SysResult>, n: nat) {
    script != [] && script[0].Wrote? && script[0].n >= n
  }

  predicate FailsFirst(script: seq<SysResult>) { script != [] && script[0].Failed? }

  predicate HasHandles(v: View) { v.handlesSent < |v.handles| }

  /**
   Answers by which a flush drops the last message of a queue and gets rid of all the others.  The plain flush
   drops everything at the first error.  With writev every message but the last goes out, an EAGAIN ends each
   run that is not over yet, and the last message, left alone, fails.
   */
  function LosingAnswers(useWritev: bool, q: seq<View>): (r: seq<SysResult>)
    ensures r != []
    decreases |q|
  {
    if !useWritev || |q| <= 1 then [Failed]
    else
      var tail := if q[0].offset <= |q[0].bytes| then |q[0].bytes| - q[0].offset else 0;
      var pause := if HasHandles(q[0]) || HasHandles(q[1]) then [] else [WouldBlock];
      [Wrote(tail)] + pause + LosingAnswers(useWritev, q[1..])
  }

  /** The socket is about to answer in that way. */
  predicate Loses(useWritev: bool, q: seq<View>, script: seq<SysResult>) {
    q != [] && LosingAnswers(useWritev, q) <= script
  }

  /** What it will answer afterwards. */
  function AfterLoss(useWritev: bool, q: seq<View>, script: seq<SysResult>): seq<SysResult>
    requires Loses(useWritev, q, script)
  {
    script[|LosingAnswers(useWritev, q)|..]
  }

  /** The first byte of what is left of a message. */
  function FirstLeft(v: View): byte { if v.offset < |v.bytes| then v.bytes[v.offset] else 0 }

  /** The first byte that is then missing. */
  function LostByte(useWritev: bool, q: seq<View>): byte
    requires q != []
  {
    FirstLeft(if useWritev then q[|q| - 1] else q[0])
  }

  lemma LosesSingle(useWritev: bool, q: seq<View>, script: seq<SysResult>)
    requires Loses(useWritev, q, script) && (!useWritev || |q| == 1)
    ensures FailsFirst(script) && AfterLoss(useWritev, q, script) == script[1..]
  {
  }

  /** The first message of several takes one answer, or two, and leaves a queue that is lost in the same way. */
  lemma LosesNext(q: seq<View>, script: seq<SysResult>)
    requires Loses(true, q, script) && |q| > 1 && q[0].Valid()
    ensures script != [] && script[0] == Wrote(|q[0].Tail()|) && LostByte(true, q[1..]) == LostByte(true, q)
    ensures HasHandles(q[0]) || HasHandles(q[1]) ==>
      Loses(true, q[1..], script[1..]) && AfterLoss(true, q[1..], script[1..]) == AfterLoss(true, q, script)
    ensures !HasHandles(q[0]) && !HasHandles(q[1]) ==>
      && |script| > 2 && script[1].WouldBlock?
      && Loses(true, q[1..], script[2..]) && AfterLoss(true, q[1..], script[2..]) == AfterLoss(true, q, script)
  {
    var later := LosingAnswers(true, q[1..]);
    if HasHandles(q[0]) || HasHandles(q[1]) {
      assert LosingAnswers(true, q) == [Wrote(|q[0].Tail()|)] + later;
      hide LosingAnswers;
      PassOver([Wrote(|q[0].Tail()|)], later, script);
    } else {
      assert LosingAnswers(true, q) == [Wrote(|q[0].Tail()|), WouldBlock] + later;
      hide LosingAnswers;
      PassOver([Wrote(|q[0].Tail()|), WouldBlock], later, script);
    }
  }

  lemma PassOver(first: seq<SysResult>, later: seq<SysResult>, script: seq<SysResult>)
    requires first + later <= script
    ensures first <= script && later <= script[|first|..]
    ensures script[|first|..][|later|..] == script[|first + later|..]
  {
    assert script == first + later + script[|first + later|..];
  }

  class PosixChannel {
    const socket: Socket
    const useWritev: bool
    var outgoingMessages: seq<View>
    var rejectWrites: bool
    var started: bool              // StartOnIOThread has run
    var watching: bool             // write_watcher_ is there
    var pendingWrite: bool         // a wait for writability is under way
    ghost var accepted: seq<Outgoing>
    ghost var startFailed: bool    // the flush of StartOnIOThread failed, which nobody is told
    ghost var lost: bool           // part of an accepted message was dropped
    ghost var holed: bool          // and something was sent since

    /** The books balance when the messages `behind`, held outside the queue, are counted after it. */
    ghost predicate Balanced(total: Total, behind: seq<View>)
      reads this, socket
    {
      Conserved(total, outgoingMessages + behind, socket.wire, socket.log)
    }

    /** The flush of `q`, when the socket had been about to answer by `script`, went as badly as it can. */
    ghost predicate HasLost(q: seq<View>, script: seq<SysResult>, total: Total)
      requires Loses(useWritev, q, script)
      reads this, socket
    {
      && outgoingMessages == [] && socket.script == AfterLoss(useWritev, q, script)
      && |socket.wire| < |total.bytes| && total.bytes[|socket.wire|] == LostByte(useWritev, q)
    }

    /** A queue that waits does so because the socket blocked, and once the channel has started is being waited for. */
    ghost predicate Awaited()
      reads this, socket
    {
      outgoingMessages != [] ==> (watching ==> pendingWrite) && socket.blocked
    }

    /**
     As long as nothing was dropped the wire and the queue are everything accepted.  The wire is a prefix of
     it as long as nothing was sent after something was dropped, which can happen only if the flush at the
     start failed.  Something is dropped, and writes are rejected, only after an error of the socket.
     */
    ghost predicate Valid()
      reads this, socket
    {
      && AllValid(accepted) && ValidQueue(outgoingMessages)
      && (!lost ==> Balanced(TotalOf(accepted), []))
      && (!holed ==> Prefixed(TotalOf(accepted), socket.wire, socket.log))
      && (lost && !holed ==> |socket.wire| < |TotalOf(accepted).bytes|)
      && (holed ==> lost && startFailed) && (lost ==> rejectWrites || startFailed)
      && (rejectWrites || startFailed ==> socket.failed) && (watching || startFailed ==> started)
      && (!rejectWrites && !startFailed ==> Awaited() && started == watching)
      && (rejectWrites && (watching || !started) && !startFailed ==> outgoingMessages == [])
    }

    constructor (socket: Socket, useWritev: bool)
      requires socket.wire == [] && socket.log == []
      ensures Valid() && accepted == [] && !rejectWrites && !lost && !started && outgoingMessages == []
      ensures this.socket == socket && this.useWritev == useWritev && !startFailed && !holed
    {
      this.socket, this.useWritev := socket, useWritev;
      outgoingMessages, rejectWrites, started, watching, pendingWrite, accepted := [], false, false, false, false, [];
      startFailed, lost, holed := false, false, false;
      NothingAccepted();
    }

    /** Before the channel has started there is no watcher and nobody waits. */
    method WaitForWrite()
      modifies `pendingWrite
      ensures pendingWrite == (old(pendingWrite) || watching)
    {
      if watching { pendingWrite := true; }
    }

    /** Accepts a message: writes it straight away if nothing is queued, queues it otherwise. */
    method Write(message: Outgoing)
      requires Valid() && message.Valid()
      modifies this, socket
      ensures Valid() && started == old(started) && startFailed == old(startFailed)
      ensures old(rejectWrites) ==> rejectWrites && accepted == old(accepted) && socket.wire == old(socket.wire)
      ensures !old(rejectWrites) ==> accepted == old(accepted) + [message]
      ensures old(outgoingMessages) == [] && !old(rejectWrites) && old(socket.script) != [] ==>
        |socket.script| < |old(socket.script)|
      ensures !startFailed ==> Prefixed(TotalOf(accepted), socket.wire, socket.log)
      ensures !old(rejectWrites) && old(socket.script) == [] ==> outgoingMessages != [] && !rejectWrites
      ensures !old(rejectWrites) && old(outgoingMessages) == [] && TakesAll(old(socket.script), |message.bytes|) ==>
        outgoingMessages == [] && socket.wire == old(socket.wire) + message.bytes
    {
      hide Conserved, Prefixed, TotalOf;
      if rejectWrites { return; }
      ghost var total := Accept(message);
      if outgoingMessages == [] {
        assert outgoingMessages + [message.Fresh()] == [message.Fresh()] + (outgoingMessages + []);
        assert message.Fresh().Tail() == message.bytes;
        ghost var wire, log := socket.wire, socket.log;
        var ok, dropped := WriteNoLock(message.Fresh(), total, []);
        holed := holed || (lost && (socket.wire != wire || socket.log != log));
        lost := lost || dropped;
        if !ok { rejectWrites := true; }
      } else {
        outgoingMessages := outgoingMessages + [message.Fresh()];
        assert outgoingMessages + [] == outgoingMessages;
        QueueIsValid(total, outgoingMessages, [], socket.wire, socket.log);
      }
    }

    /**
     Takes a message over and returns the total to keep: everything accepted, or some other if part of it was dropped.
     */
    ghost method Accept(message: Outgoing) returns (total: Total)
      requires Valid() && message.Valid()
      modifies `accepted
      ensures accepted == old(accepted) + [message] && AllValid(accepted)
      ensures Conserved(total, outgoingMessages + [message.Fresh()], socket.wire, socket.log)
      ensures !lost ==> total == TotalOf(accepted)
      ensures !holed ==> Prefixed(TotalOf(accepted), socket.wire, socket.log)
      ensures lost && !holed ==> |socket.wire| < |TotalOf(accepted).bytes|
    {
      hide Conserved, Prefixed, TotalOf;
      assert outgoingMessages + [] == outgoingMessages;
      if !holed { AcceptKeepsPrefix(accepted, message, socket.wire, socket.log); }
      if lost {
        assert ValidQueue(outgoingMessages + [message.Fresh()]);
        total := SomeTotal(outgoingMessages + [message.Fresh()], socket.wire, socket.log);
      } else {
        AcceptConserves(accepted, message, outgoingMessages, socket.wire, socket.log);
        total := TotalOf(accepted + [message]);
      }
      accepted := accepted + [message];
    }

    /** The socket became writable; on an error the watcher goes, unless it went before. */
    method OnFileCanWrite()
      requires Valid() && watching
      modifies this, socket
      ensures Valid() && accepted == old(accepted) && started == old(started) && startFailed == old(startFailed)
      ensures old(outgoingMessages) != [] && old(socket.script) != [] ==> |socket.script| < |old(socket.script)|
      ensures !startFailed ==> Prefixed(TotalOf(accepted), socket.wire, socket.log)
      ensures old(rejectWrites) && !startFailed ==> socket.wire == old(socket.wire)
    {
      hide Conserved, Prefixed, TotalOf;
      pendingWrite := false;
      var ok := Flush();
      if !ok {
        rejectWrites := true;
        OnWriteError();
      }
    }

    /** The I/O thread has learned of an error: at once in a callback, later if a write met it. */
    method OnWriteError()
      requires rejectWrites
      modifies `watching
      ensures !watching && (old(Valid()) ==> Valid())
    {
      watching := false;
    }

    /** The channel starts: what could not be written before is flushed, and nobody looks at the result. */
    method StartOnIOThread()
      requires Valid() && !started
      modifies this, socket
      ensures Valid() && started && accepted == old(accepted) && rejectWrites == old(rejectWrites)
      ensures Prefixed(TotalOf(accepted), socket.wire, socket.log)
      ensures startFailed ==> old(outgoingMessages) != [] && (!useWritev ==> lost && outgoingMessages == [])
      ensures !startFailed ==> !lost || old(lost)
      ensures Loses(useWritev, old(outgoingMessages), old(socket.script)) ==>
        && startFailed && lost && !holed
        && (!old(lost) ==> HasLost(old(outgoingMessages), old(socket.script), TotalOf(accepted)))
    {
      hide Conserved, Prefixed, TotalOf;
      started, watching := true, true;
      var ok := Flush();
      startFailed := !ok;
    }

    /** A flush with its account of what it dropped. */
    method Flush() returns (ok: bool)
      requires AllValid(accepted) && ValidQueue(outgoingMessages)
      requires (!lost ==> Balanced(TotalOf(accepted), [])) && (holed ==> lost)
      requires !holed ==> Prefixed(TotalOf(accepted), socket.wire, socket.log)
      requires lost && !holed ==> |socket.wire| < |TotalOf(accepted).bytes|
      modifies `outgoingMessages, `pendingWrite, `lost, `holed, socket
      ensures ValidQueue(outgoingMessages) && (old(lost) ==> lost)
      ensures (!lost ==> Balanced(TotalOf(accepted), [])) && (holed ==> lost)
      ensures !holed ==> Prefixed(TotalOf(accepted), socket.wire, socket.log)
      ensures lost && !holed ==> |socket.wire| < |TotalOf(accepted).bytes|
      ensures !old(lost) || old(outgoingMessages) == [] ==> holed == old(holed)
      ensures (!ok || old(socket.failed) ==> socket.failed) && (lost && !old(lost) ==> !ok)
      ensures ok ==> Awaited() && (old(pendingWrite) ==> pendingWrite)
      ensures old(outgoingMessages) != [] && old(socket.script) != [] ==> |socket.script| < |old(socket.script)|
      ensures old(outgoingMessages) == [] ==>
        && ok && lost == old(lost) && outgoingMessages == []
        && socket.script == old(socket.script) && socket.wire == old(socket.wire)
      ensures !ok && !useWritev ==> lost && outgoingMessages == []
      ensures Loses(useWritev, old(outgoingMessages), old(socket.script)) ==>
        && !ok && lost
        && (!old(lost) ==> HasLost(old(outgoingMessages), old(socket.script), TotalOf(accepted)))
    {
      hide Conserved, Prefixed, TotalOf, LosingAnswers;
      assert outgoingMessages + [] == outgoingMessages;
      ghost var total;
      if lost {
        total := SomeTotal(outgoingMessages, socket.wire, socket.log);
      } else {
        total := TotalOf(accepted);
      }
      ghost var wire, log := socket.wire, socket.log;
      ghost var dropped;
      ok, dropped := FlushOutgoingMessages(total, []);
      holed := holed || (lost && (socket.wire != wire || socket.log != log));
      lost := lost || dropped;
    }

    /**
     Writes `message`, which comes before everything queued, in as many pieces as it takes; on EAGAIN
     what is left of it goes back to the front of the queue, on an error it is dropped.
     */
    method WriteNoLock(message: View, ghost total: Total, ghost behind: seq<View>)
      returns (ok: bool, ghost dropped: bool)
      requires Conserved(total, [message] + (outgoingMessages + behind), socket.wire, socket.log)
      modifies `outgoingMessages, `pendingWrite, socket
      ensures |socket.script| <= |old(socket.script)|
      ensures old(socket.script) != [] ==> |socket.script| < |old(socket.script)|
      ensures old(socket.script) == [] ==> ok && |outgoingMessages| == |old(outgoingMessages)| + 1
      ensures Prefixed(total, socket.wire, socket.log) && (!ok || old(socket.failed) ==> socket.failed)
      ensures ValidQueue(outgoingMessages) && (ok ==> !dropped) && (!dropped ==> Balanced(total, behind))
      ensures dropped ==> |socket.wire| < |total.bytes|
      ensures ok ==> Awaited() && (old(pendingWrite) ==> pendingWrite)
      ensures FailsFirst(old(socket.script)) ==>
        && !ok && dropped && outgoingMessages == old(outgoingMessages) && socket.script == old(socket.script)[1..]
        && |socket.wire| < |total.bytes| && total.bytes[|socket.wire|] == FirstLeft(message)
      ensures message.Valid() && (!ok && old(outgoingMessages) == [] ==> dropped && outgoingMessages == [])
      ensures old(outgoingMessages) == [] && TakesAll(old(socket.script), |message.Tail()|) ==>
        ok && outgoingMessages == [] && socket.wire == old(socket.wire) + message.Tail()
      ensures TakesAll(old(socket.script), |message.Tail()|)
                && Loses(useWritev, old(outgoingMessages), old(socket.script)[1..]) ==>
        !ok && dropped && HasLost(old(outgoingMessages), old(socket.script)[1..], total)
      decreases |socket.script|, 0
    {
      hide Conserved, Prefixed, LosingAnswers;
      ghost var rest := outgoingMessages + behind;
      FrontIsValid(total, message, rest, socket.wire, socket.log);
      RestIsValid(total, message, outgoingMessages, behind, socket.wire, socket.log);
      var v, more := message, true;
      while more
        invariant |socket.script| <= |old(socket.script)| && outgoingMessages == old(outgoingMessages)
        invariant (more ==> v.Valid()) && pendingWrite == old(pendingWrite) && (old(socket.failed) ==> socket.failed)
        invariant |socket.script| == |old(socket.script)| ==>
          more && v == message && socket.wire == old(socket.wire) && socket.script == old(socket.script)
        invariant !more ==> |socket.script| < |old(socket.script)|
        invariant TakesAll(old(socket.script), |message.Tail()|) && |socket.script| < |old(socket.script)| ==>
          !more && socket.script == old(socket.script)[1..] && socket.wire == old(socket.wire) + message.Tail()
        invariant FailsFirst(old(socket.script)) ==> |socket.script| == |old(socket.script)|
        invariant Conserved(total, if more then [v] + rest else rest, socket.wire, socket.log)
        decreases more, |socket.script|
      {
        ghost var wire, log := socket.wire, socket.log;
        ConservedIsPrefixed(total, [v] + rest, wire, log);
        var withHandles := HasHandles(v);
        // The handles of one message never exceed what one sendmsg can carry.
        var result := socket.Send(v.Tail(), if withHandles then v.handles[v.handlesSent..] else []);
        if !result.Wrote? {
          if result.Failed? {
            TailIsMissing(total, v, rest, wire, log);
            return false, true;
          }
          outgoingMessages := [v] + outgoingMessages;
          assert outgoingMessages + behind == [v] + rest;
          WaitForWrite();
          return true, false;
        }
        SendConserves(total, v, rest, wire, log, result.n, withHandles);
        more := result.n < |v.Tail()|;
        v := Advanced(v, result.n, withHandles);
      }
      ok, dropped := FlushOutgoingMessages(total, behind);
    }

    method FlushOutgoingMessages(ghost total: Total, ghost behind: seq<View>) returns (ok: bool, ghost dropped: bool)
      requires Balanced(total, behind)
      modifies `outgoingMessages, `pendingWrite, socket
      ensures old(outgoingMessages) != [] && old(socket.script) != [] ==> |socket.script| < |old(socket.script)|
      ensures |socket.script| <= |old(socket.script)|
      ensures Prefixed(total, socket.wire, socket.log) && (!ok || old(socket.failed) ==> socket.failed)
      ensures ValidQueue(outgoingMessages) && (ok ==> !dropped) && (!dropped ==> Balanced(total, behind))
      ensures dropped ==> |socket.wire| < |total.bytes|
      ensures ok ==> Awaited() && (old(pendingWrite) ==> pendingWrite)
      ensures old(outgoingMessages) == [] ==>
        && ok && outgoingMessages == [] && socket.script == old(socket.script)
        && socket.wire == old(socket.wire) && socket.log == old(socket.log)
      ensures !ok && !useWritev ==> dropped && outgoingMessages == []
      ensures Loses(useWritev, old(outgoingMessages), old(socket.script)) ==>
        !ok && dropped && HasLost(old(outgoingMessages), old(socket.script), total)
      decreases |socket.script|, 3
    {
      hide LosingAnswers;
      if useWritev {
        ok, dropped := FlushWithWritev(total, behind);
      } else {
        ok, dropped := FlushOneByOne(total, behind);
      }
    }

    /** The plain flush takes the queue out and writes its messages one after the other; on an error all are gone. */
    method FlushOneByOne(ghost total: Total, ghost behind: seq<View>) returns (ok: bool, ghost dropped: bool)
      requires Balanced(total, behind)
      modifies `outgoingMessages, `pendingWrite, socket
      ensures old(outgoingMessages) != [] && old(socket.script) != [] ==> |socket.script| < |old(socket.script)|
      ensures |socket.script| <= |old(socket.script)|
      ensures Prefixed(total, socket.wire, socket.log) && (!ok || old(socket.failed) ==> socket.failed)
      ensures ValidQueue(outgoingMessages) && (ok <==> !dropped) && (ok ==> Balanced(total, behind))
      ensures dropped ==> |socket.wire| < |total.bytes|
      ensures ok ==> Awaited() && (old(pendingWrite) ==> pendingWrite)
      ensures old(outgoingMessages) == [] ==>
        && ok && outgoingMessages == [] && socket.script == old(socket.script)
        && socket.wire == old(socket.wire) && socket.log == old(socket.log)
      ensures !ok ==> outgoingMessages == []
      ensures !useWritev && Loses(false, old(outgoingMessages), old(socket.script)) ==>
        !ok && HasLost(old(outgoingMessages), old(socket.script), total)
      decreases |socket.script|, 2
    {
      hide Conserved, Prefixed, LosingAnswers;
      ghost var loses := Loses(false, outgoingMessages, socket.script);
      if loses { LosesSingle(false, outgoingMessages, socket.script); }
      ConservedIsPrefixed(total, outgoingMessages + behind, socket.wire, socket.log);
      QueueIsValid(total, outgoingMessages, behind, socket.wire, socket.log);
      var messages := outgoingMessages;
      outgoingMessages := [];
      ok, dropped := true, false;
      while messages != []
        invariant outgoingMessages == [] && |socket.script| <= |old(socket.script)| && ok && !dropped
        invariant messages != old(outgoingMessages) && old(socket.script) != [] ==>
            |socket.script| < |old(socket.script)|
        invariant old(pendingWrite) ==> pendingWrite
        invariant messages == old(outgoingMessages) ==>
          socket.script == old(socket.script) && socket.wire == old(socket.wire) && socket.log == old(socket.log)
        invariant messages != old(outgoingMessages) ==> !FailsFirst(old(socket.script))
        invariant |messages| <= |old(outgoingMessages)|
        invariant Conserved(total, messages + behind, socket.wire, socket.log)
        invariant Prefixed(total, socket.wire, socket.log) && (old(socket.failed) ==> socket.failed)
        decreases |messages|
      {
        var front := messages[0];
        ghost var held := messages[1..] + behind;
        assert messages + behind == [front] + (outgoingMessages + held);
        messages := messages[1..];
        ok, dropped := WriteNoLock(front, total, held);
        if !ok {
          // The message was dropped, and those behind it were in `messages` and are gone too.
          return;
        }
        if outgoingMessages != [] {
          // The message was requeued: wait for the socket, with the others behind it.
          assert (outgoingMessages + messages) + behind == outgoingMessages + held;
          outgoingMessages := outgoingMessages + messages;
          QueueIsValid(total, outgoingMessages, behind, socket.wire, socket.log);
          return;
        }
        assert outgoingMessages + held == held;
      }
      assert outgoingMessages + behind == messages + behind;
    }

    /**
     The writev flush: messages with handles, and single messages, go out by themselves; runs of other
     messages go out together.  After EAGAIN the loop tries again while the queue is not empty; it is
     followed here until the socket has no more answers.
     */
    method FlushWithWritev(ghost total: Total, ghost behind: seq<View>) returns (ok: bool, ghost dropped: bool)
      requires Balanced(total, behind)
      modifies `outgoingMessages, `pendingWrite, socket
      ensures old(outgoingMessages) != [] && old(socket.script) != [] ==> |socket.script| < |old(socket.script)|
      ensures |socket.script| <= |old(socket.script)|
      ensures Prefixed(total, socket.wire, socket.log) && (!ok || old(socket.failed) ==> socket.failed)
      ensures ValidQueue(outgoingMessages) && (ok ==> !dropped) && (!dropped ==> Balanced(total, behind))
      ensures dropped ==> |socket.wire| < |total.bytes|
      ensures ok ==> Awaited() && (old(pendingWrite) ==> pendingWrite)
      ensures old(outgoingMessages) == [] ==>
        && ok && outgoingMessages == [] && socket.script == old(socket.script)
        && socket.wire == old(socket.wire) && socket.log == old(socket.log)
      ensures useWritev && Loses(true, old(outgoingMessages), old(socket.script)) ==>
        !ok && dropped && HasLost(old(outgoingMessages), old(socket.script), total)
      decreases |socket.script|, 2
    {
      hide Conserved, Prefixed, LosingAnswers;
      ghost var loses := useWritev && Loses(true, outgoingMessages, socket.script);
      ConservedIsPrefixed(total, outgoingMessages + behind, socket.wire, socket.log);
      QueueIsValid(total, outgoingMessages, behind, socket.wire, socket.log);
      var stalled, requeued := false, false;
      ok, dropped := true, false;
      while outgoingMessages != [] && !(stalled && socket.script == [])
        invariant |socket.script| <= |old(socket.script)| && (stalled && watching ==> pendingWrite)
        invariant (old(pendingWrite) ==> pendingWrite) && (stalled ==> socket.blocked) && ok && !dropped
        invariant Balanced(total, behind) && Prefixed(total, socket.wire, socket.log) && ValidQueue(outgoingMessages)
        invariant old(socket.failed) ==> socket.failed
        invariant || (outgoingMessages == old(outgoingMessages) && socket.script == old(socket.script) && !stalled
                      && socket.wire == old(socket.wire) && socket.log == old(socket.log))
                  || (old(outgoingMessages) != []
                      && (old(socket.script) == [] || |socket.script| < |old(socket.script)|))
        invariant loses ==>
          && Loses(true, outgoingMessages, socket.script)
          && AfterLoss(true, outgoingMessages, socket.script)
               == AfterLoss(true, old(outgoingMessages), old(socket.script))
          && LostByte(true, outgoingMessages) == LostByte(true, old(outgoingMessages))
        decreases |socket.script|, if stalled then 0 else 1
      {
        ok, requeued, dropped := FlushMessagesAlone(total, behind);
        if !ok || requeued { return; }
        ok, stalled := WriteOutgoingMessagesWithWritev(total, behind);
        if !ok { return; }
      }
    }

    predicate GoesAlone()
      reads this
    {
      outgoingMessages != [] &&
      (HasHandles(outgoingMessages[0]) || |outgoingMessages| == 1)
    }

    /** Writes messages from the front of the queue while they carry handles or are the only one. */
    method FlushMessagesAlone(ghost total: Total, ghost behind: seq<View>)
      returns (ok: bool, requeued: bool, ghost dropped: bool)
      requires Balanced(total, behind)
      modifies `outgoingMessages, `pendingWrite, socket
      ensures (!ok || requeued) && old(socket.script) != [] ==> |socket.script| < |old(socket.script)|
      ensures |socket.script| <= |old(socket.script)|
      ensures Prefixed(total, socket.wire, socket.log) && (!ok || old(socket.failed) ==> socket.failed)
      ensures ValidQueue(outgoingMessages) && (ok ==> !dropped) && (!dropped ==> Balanced(total, behind))
      ensures dropped ==> |socket.wire| < |total.bytes|
      ensures ok ==> old(pendingWrite) ==> pendingWrite
      ensures ok && requeued ==> Awaited()
      ensures ok && !requeued ==> !GoesAlone()
      ensures ok && !requeued && |socket.script| == |old(socket.script)| ==>
        && outgoingMessages == old(outgoingMessages) && socket.script == old(socket.script)
        && socket.wire == old(socket.wire) && socket.log == old(socket.log)
      ensures !old(GoesAlone()) ==> ok && |socket.script| == |old(socket.script)| && !requeued
      ensures useWritev && old(GoesAlone()) && Loses(true, old(outgoingMessages), old(socket.script)) ==>
        !ok && dropped && HasLost(old(outgoingMessages), old(socket.script), total)
      decreases |socket.script|, 1
    {
      hide Conserved, Prefixed, LosingAnswers;
      ghost var loses := useWritev && GoesAlone() && Loses(true, outgoingMessages, socket.script);
      ConservedIsPrefixed(total, outgoingMessages + behind, socket.wire, socket.log);
      QueueIsValid(total, outgoingMessages, behind, socket.wire, socket.log);
      while GoesAlone()
        invariant |socket.script| <= |old(socket.script)| && (old(pendingWrite) ==> pendingWrite)
        invariant |socket.script| == |old(socket.script)| ==>
          && outgoingMessages == old(outgoingMessages) && socket.script == old(socket.script)
          && socket.wire == old(socket.wire) && socket.log == old(socket.log)
        invariant loses || !old(GoesAlone()) ==> |socket.script| == |old(socket.script)|
        invariant Balanced(total, behind) && Prefixed(total, socket.wire, socket.log) && ValidQueue(outgoingMessages)
        invariant old(socket.failed) ==> socket.failed
        decreases |socket.script|
      {
        var message := outgoingMessages[0];
        if loses {
          if |outgoingMessages| == 1 { LosesSingle(true, outgoingMessages, socket.script); }
          else { LosesNext(outgoingMessages, socket.script); }
        }
        assert outgoingMessages + behind == [message] + (outgoingMessages[1..] + behind);
        outgoingMessages := outgoingMessages[1..];
        var before := |outgoingMessages|;
        ok, dropped := WriteNoLock(message, total, behind);
        if !ok { return false, false, dropped; }
        if |outgoingMessages| > before { return true, true, false; }
      }
      return true, false, false;
    }

    /** Lists the tails of the longest run of queued messages without handles, up to the kernel's limit. */
    method Gather() returns (iov: seq<Bytes>)
      requires ValidQueue(outgoingMessages)
      ensures IovMatches(iov, outgoingMessages)
      ensures outgoingMessages != [] && !GoesAlone() ==> iov != []
      ensures outgoingMessages != [] && !GoesAlone() && !HasHandles(outgoingMessages[1]) ==> |iov| > 1
    {
      iov := [];
      while |iov| < IOV_MAX && |iov| < |outgoingMessages|
        invariant IovMatches(iov, outgoingMessages)
        invariant outgoingMessages != [] && !GoesAlone() && iov == [] ==> outgoingMessages[0].UnsentHandles() == []
      {
        var v := outgoingMessages[|iov|];
        if HasHandles(v) { return; }
        iov := iov + [v.Tail()];
      }
    }

    /** Pops the messages that `n` written bytes completed and advances the one they cut. */
    method PopWritten(n: nat, iov: seq<Bytes>, ghost total: Total, ghost behind: seq<View>, ghost wireBefore: Bytes)
      returns (left: seq<Bytes>)
      requires Conserved(total, outgoingMessages + behind, wireBefore, socket.log)
      requires IovMatches(iov, outgoingMessages) && n <= |Flatten(iov)|
      requires socket.wire == wireBefore + Flatten(iov)[..n]
      modifies `outgoingMessages
      ensures Balanced(total, behind) && IovMatches(left, outgoingMessages)
      ensures iov != [] && n == |iov[0]| ==> left == iov[1..] && outgoingMessages == old(outgoingMessages)[1..]
    {
      hide Conserved;
      left := iov;
      var remaining := n;
      ghost var wire := wireBefore;
      while remaining > 0
        invariant Conserved(total, outgoingMessages + behind, wire, socket.log)
        invariant IovMatches(left, outgoingMessages) && 0 <= remaining <= |Flatten(left)|
        invariant socket.wire == wire + Flatten(left)[..remaining]
        invariant iov != [] && n == |iov[0]| ==>
          || (remaining == n && left == iov && outgoingMessages == old(outgoingMessages))
          || (remaining == 0 && left == iov[1..] && outgoingMessages == old(outgoingMessages)[1..])
      {
        ghost var tail := Flatten(left[1..]);
        if remaining >= |left[0]| {
          WritevConserves(total, left, outgoingMessages, behind, wire, socket.log, |left[0]|);
          assert (left[0] + tail)[..remaining] == left[0] + tail[..remaining - |left[0]|];
          wire := wire + left[0];
          remaining := remaining - |left[0]|;
          outgoingMessages := outgoingMessages[1..];
          left := left[1..];
        } else {
          WritevConserves(total, left, outgoingMessages, behind, wire, socket.log, remaining);
          assert (left[0] + tail)[..remaining] == left[0][..remaining];
          wire := wire + left[0][..remaining];
          outgoingMessages := [Advanced(outgoingMessages[0], remaining, false)] + outgoingMessages[1..];
          left := left[0 := outgoingMessages[0].Tail()];
          remaining := 0;
        }
      }
      assert wire == socket.wire;
    }

    /** One writev call on what is left of a run. */
    method WritevOnce(iov: seq<Bytes>, ghost total: Total, ghost behind: seq<View>)
      returns (result: SysResult, left: seq<Bytes>)
      requires Balanced(total, behind) && IovMatches(iov, outgoingMessages) && iov != []
      modifies `outgoingMessages, socket
      ensures socket.script == if old(socket.script) == [] then [] else old(socket.script)[1..]
      ensures old(socket.script) == [] ==> result.WouldBlock?
      ensures Balanced(total, behind) && Prefixed(total, socket.wire, socket.log)
      ensures IovMatches(left, outgoingMessages) && ValidQueue(outgoingMessages)
      ensures socket.blocked == result.WouldBlock? && socket.failed == (old(socket.failed) || result.Failed?)
      ensures !result.Wrote? ==> outgoingMessages == old(outgoingMessages)
      ensures old(socket.script) != [] && !old(socket.script)[0].Wrote? ==> result == old(socket.script)[0]
      ensures old(socket.script) != [] && old(socket.script)[0].Wrote? ==> result.Wrote?
      ensures old(socket.script) != [] && old(socket.script)[0] == Wrote(|iov[0]|) ==>
        left == iov[1..] && outgoingMessages == old(outgoingMessages)[1..]
    {
      hide Conserved, Prefixed, Flatten;
      ConservedIsPrefixed(total, outgoingMessages + behind, socket.wire, socket.log);
      ghost var wire, log := socket.wire, socket.log;
      FlattenFirst(iov);
      result := socket.Send(Flatten(iov), []);
      left := iov;
      if result.Wrote? {
        NothingBeside(log, |wire|);
        left := PopWritten(result.n, iov, total, behind, wire);
        ConservedIsPrefixed(total, outgoingMessages + behind, socket.wire, socket.log);
      }
    }

    /** Sends the longest run of queued messages without handles by as many writev calls as it takes; drops nothing. */
    method WriteOutgoingMessagesWithWritev(ghost total: Total, ghost behind: seq<View>)
      returns (ok: bool, stalled: bool)
      requires Balanced(total, behind)
      modifies `outgoingMessages, `pendingWrite, socket
      ensures !ok ==> |socket.script| < |old(socket.script)|
      ensures |socket.script| <= |old(socket.script)|
      ensures ok && old(outgoingMessages) != [] && !old(GoesAlone()) ==>
                if old(socket.script) == [] then stalled else |socket.script| < |old(socket.script)|
      ensures old(outgoingMessages) == [] ==>
        ok && !stalled && outgoingMessages == [] && socket.script == old(socket.script)
            && socket.wire == old(socket.wire)
      ensures Prefixed(total, socket.wire, socket.log) && (!ok || old(socket.failed) ==> socket.failed)
      ensures Balanced(total, behind) && ValidQueue(outgoingMessages) && (old(pendingWrite) ==> pendingWrite)
      ensures ok && stalled ==> socket.blocked && (watching ==> pendingWrite)
      ensures |old(outgoingMessages)| > 1 && !old(GoesAlone())
                && Loses(true, old(outgoingMessages), old(socket.script)) ==>
        && ok && Loses(true, outgoingMessages, socket.script)
        && AfterLoss(true, outgoingMessages, socket.script)
             == AfterLoss(true, old(outgoingMessages), old(socket.script))
        && LostByte(true, outgoingMessages) == LostByte(true, old(outgoingMessages))
    {
      hide Conserved, Prefixed, Loses, AfterLoss, LostByte, Flatten, IovMatches;
      ghost var loses := |outgoingMessages| > 1 && !GoesAlone() && Loses(true, outgoingMessages, socket.script);
      ghost var start, script := outgoingMessages, socket.script;
      QueueIsValid(total, outgoingMessages, behind, socket.wire, socket.log);
      ConservedIsPrefixed(total, outgoingMessages + behind, socket.wire, socket.log);
      if outgoingMessages == [] { return true, false; }
      var iov := Gather();
      if loses {
        LosesNext(start, script);
        GatherShape(iov, start);
      }
      while iov != []
        invariant loses ==>
          || (socket.script == script && outgoingMessages == start && iov != [] && iov[0] == start[0].Tail()
              && (|iov| == 1 <==> HasHandles(start[1])))
          || (socket.script == script[1..] && outgoingMessages == start[1..] && (iov == [] <==> HasHandles(start[1])))
        invariant |socket.script| <= |old(socket.script)| && pendingWrite == old(pendingWrite)
        invariant |socket.script| == |old(socket.script)| ==> outgoingMessages == old(outgoingMessages)
        invariant !old(GoesAlone()) && iov == [] ==> |socket.script| < |old(socket.script)|
        invariant Balanced(total, behind) && Prefixed(total, socket.wire, socket.log) && ValidQueue(outgoingMessages)
        invariant IovMatches(iov, outgoingMessages) && (old(socket.failed) ==> socket.failed)
        decreases |socket.script|
      {
        var result;
        result, iov := WritevOnce(iov, total, behind);
        if !result.Wrote? {
          if result.Failed? { return false, false; }
          WaitForWrite();
          return true, true;
        }
      }
      return true, false;
    }
  }

  // ---- exactly when the start keeps to the stream ----

  lemma GatherShape(iov: seq<Bytes>, q: seq<View>)
    requires IovMatches(iov, q) && iov != [] && |q| > 1
    ensures iov[0] == q[0].Tail() && (HasHandles(q[1]) ==> |iov| == 1)
  {
  }

  lemma FlattenFirst(ms: seq<Bytes>)
    requires ms != []
    ensures |ms[0]| <= |Flatten(ms)|
  {
  }

  /** What may happen to a channel once it has started; callbacks come only while there is a watcher. */
  datatype Call = WriteCall(message: Outgoing) | CanWriteCall | ErrorCall

  predicate ValidCalls(calls: seq<Call>) {
    forall i :: 0 <= i < |calls| && calls[i].WriteCall? ==> calls[i].message.Valid()
  }

  /** The worst that can follow: all that is queued goes or is dropped, then another message is sent in full. */
  predicate Spoils(useWritev: bool, q: seq<View>, script: seq<SysResult>, calls: seq<Call>) {
    && q != [] && script == LosingAnswers(useWritev, q) + [Wrote(1)]
    && calls == [WriteCall(Outgoing([if LostByte(useWritev, q) == 0 then 1 else 0], []))]
  }

  /** Nothing but an empty queue is safe from that. */
  lemma SpoilableIff(useWritev: bool, q: seq<View>)
    ensures q != [] <==> exists script, calls :: ValidCalls(calls) && Spoils(useWritev, q, script, calls)
  {
    if q != [] {
      var calls := [WriteCall(Outgoing([if LostByte(useWritev, q) == 0 then 1 else 0], []))];
      assert calls[0].message.Valid();
      assert Spoils(useWritev, q, LosingAnswers(useWritev, q) + [Wrote(1)], calls);
    }
  }

  lemma LeavesStream(accepted: seq<Outgoing>, m: Outgoing, wire: Bytes, log: seq<SentHandle>)
    requires AllValid(accepted) && m.Valid() && |wire| < |TotalOf(accepted).bytes|
    requires TotalOf(accepted).bytes[|wire|] != m.bytes[0]
    ensures AllValid(accepted + [m]) && !Prefixed(TotalOf(accepted + [m]), wire + m.bytes, log)
  {
    TotalGrows(accepted, m);
    var total := TotalOf(accepted + [m]);
    assert total.bytes[|wire|] == TotalOf(accepted).bytes[|wire|];
    assert (wire + m.bytes)[|wire|] == m.bytes[0];
  }

  /**
   A channel is started and used, with any answers of the socket.  If nothing is queued when it starts it keeps
   to the stream, whatever is called and answered; if anything is, some answers and one call lose the stream.
   */
  method StartAndUse(channel: PosixChannel, calls: seq<Call>)
    requires channel.Valid() && !channel.started && ValidCalls(calls)
    modifies channel, channel.socket
    ensures channel.Valid() && channel.started
    ensures old(channel.outgoingMessages) == [] ==>
      Prefixed(TotalOf(channel.accepted), channel.socket.wire, channel.socket.log)
    ensures Spoils(channel.useWritev, old(channel.outgoingMessages), old(channel.socket.script), calls) ==>
      !Prefixed(TotalOf(channel.accepted), channel.socket.wire, channel.socket.log)
  {
    hide Conserved, Prefixed, TotalOf, ValidQueue, LosingAnswers;
    ghost var (queue, script) := (channel.outgoingMessages, channel.socket.script);
    ghost var spoiled := Spoils(channel.useWritev, queue, script, calls);
    channel.StartOnIOThread();
    ghost var (accepted, wire) := (channel.accepted, channel.socket.wire);
    assert spoiled ==> AfterLoss(channel.useWritev, queue, script) == [Wrote(1)];
    for i := 0 to |calls|
      invariant channel.Valid() && channel.started && (queue == [] ==> !channel.startFailed)
      invariant spoiled && i == 0 ==>
        && channel.accepted == accepted && channel.socket.wire == wire && channel.socket.script == [Wrote(1)]
        && channel.outgoingMessages == [] && !channel.rejectWrites
      invariant spoiled && i == 1 ==> !Prefixed(TotalOf(channel.accepted), channel.socket.wire, channel.socket.log)
    {
      match calls[i] {
        case WriteCall(message) =>
          channel.Write(message);
          if spoiled { LeavesStream(accepted, message, wire, channel.socket.log); }
        case CanWriteCall =>
          if channel.watching { channel.OnFileCanWrite(); }
        case ErrorCall =>
          if channel.rejectWrites { channel.OnWriteError(); }
      }
    }
  }

  /** For example a message written too early, which waits in the queue because the socket blocks. */
  method WriteBeforeStart(useWritev: bool) returns (channel: PosixChannel)
    ensures channel.Valid() && channel.useWritev == useWritev
    ensures !Prefixed(TotalOf(channel.accepted), channel.socket.wire, channel.socket.log)
  {
    hide Conserved, Prefixed, TotalOf, ValidQueue, LosingAnswers;
    var socket := new Socket([]);
    channel := new PosixChannel(socket, useWritev);
    channel.Write(Outgoing([1], []));
    var queue := channel.outgoingMessages;
    socket.script := LosingAnswers(useWritev, queue) + [Wrote(1)];
    var next := Outgoing([if LostByte(useWritev, queue) == 0 then 1 else 0], []);
    StartAndUse(channel, [WriteCall(next)]);
  }
}
