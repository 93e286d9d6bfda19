/**
 The send queue of the Mach channel: a handshake, a queue of messages waiting, and one buffer that holds
 a message the kernel would not take yet.
 */
module MachQueue {
  import opened Basics

  /** The answers of `mach_msg`. */
  datatype Outcome = Sent | TimedOut | InvalidDest | OtherError

  /** The receiver's kernel queue.  Its answers are any sequence at all, but a dead name stays dead. */
  class Port {
    var answers: seq<Outcome>
    var fileports: seq<bool>
    var queue: seq<nat>
    var dead: bool
    ghost var full: bool                 // the last answer was a time-out
    ghost var failed: bool               // some other error has occurred
    ghost var attempts: nat

    constructor (answers: seq<Outcome>, fileports: seq<bool>)
      ensures queue == [] && !dead && !failed && this.answers == answers && this.fileports == fileports
    {
      this.answers, this.fileports, queue, dead := answers, fileports, [], false;
      full, failed, attempts := false, false, 0;
    }

    /** Whether the handles of the next message could be turned into descriptors. */
    method MakeDescriptors() returns (ok: bool)
      modifies this`fileports, this`failed, this`attempts
      ensures ok == (old(fileports) == [] || old(fileports)[0])
      ensures failed == (old(failed) || !ok) && attempts == old(attempts) + 1
    {
      ok := fileports == [] || fileports[0];
      if fileports != [] { fileports := fileports[1..]; }
      failed, attempts := failed || !ok, attempts + 1;
    }

    method Send(m: nat) returns (r: Outcome)
      modifies this
      ensures queue == if r.Sent? then old(queue) + [m] else old(queue)
      ensures dead == (old(dead) || r.InvalidDest?)
      ensures old(dead) ==> r.InvalidDest?
      ensures full == r.TimedOut? && failed == (old(failed) || r.OtherError?) && attempts == old(attempts) + 1
    {
      r := if answers == [] then TimedOut else answers[0];
      if answers != [] { answers := answers[1..]; }
      if dead { r := InvalidDest; }
      if r.Sent? { queue := queue + [m]; }
      if r.InvalidDest? { dead := true; }
      full, failed, attempts := r.TimedOut?, failed || r.OtherError?, attempts + 1;
    }
  }

  class MachChannel {
    const port: Port
    var pending: seq<nat>
    var sendBuffer: Option<nat>          // send_buffer_contains_message_ and what the buffer holds
    var isRetryScheduled: bool
    var handshakeDone: bool
    var rejectWrites: bool
    var retries: nat                     // posted tasks for RetrySendPendingMessages
    ghost var accepted: seq<nat>         // messages that Write took
    ghost var lost: seq<nat>             // messages destroyed after a failed send
    ghost var stopped: bool              // the handshake failed or the channel was shut down

    ghost function Slot(): seq<nat>
      reads this
    {
      if sendBuffer.Some? then [sendBuffer.value] else []
    }

    /**
     Every accepted message is in exactly one place, and the places are in order: the receiver's queue,
     then what was destroyed, then the send buffer, then the waiting messages.  Nothing is destroyed
     while the destination lives and writes are accepted.
     */
    ghost predicate Conserved(waiting: seq<nat>)
      reads this, port
    {
      && port.queue + lost + Slot() + waiting == accepted
      && (lost != [] ==> port.dead || rejectWrites)
      && (rejectWrites ==> port.failed || stopped)
    }

    /**
     A message is kept in the buffer only if the kernel's queue was full; an occupied buffer has exactly
     one retry under way, and no more than one is ever posted.
     */
    ghost predicate Scheduled()
      reads this, port
    {
      && retries == (if isRetryScheduled then 1 else 0)
      && (isRetryScheduled ==> handshakeDone)
      && (sendBuffer.Some? ==> handshakeDone && port.full && (rejectWrites || isRetryScheduled))
    }

    /** Messages wait only for the handshake or behind an occupied buffer. */
    ghost predicate NotStranded()
      reads this, port
    {
      pending != [] && handshakeDone && !rejectWrites && !port.dead ==> sendBuffer.Some?
    }

    ghost predicate Valid()
      reads this, port
    {
      Conserved(pending) && Scheduled() && NotStranded()
    }

    /**
     The kernel has been given a prefix of the accepted messages, and while the destination lives and
     writes are accepted nothing is missing; what has not been sent is bound to be tried again.
     */
    lemma SentInOrder()
      requires Valid()
      ensures port.queue <= accepted
      ensures !port.dead && !port.failed && !stopped ==> !rejectWrites && port.queue + Slot() + pending == accepted
      ensures !port.dead && !rejectWrites && handshakeDone && port.queue != accepted ==>
          sendBuffer.Some? && retries == 1
    {
      assert port.queue + (lost + Slot() + pending) == accepted;
    }

    constructor (port: Port)
      requires port.queue == []
      ensures Valid() && fresh(this) && !stopped && this.port == port && accepted == [] && !handshakeDone
          && !rejectWrites
    {
      this.port, pending, sendBuffer := port, [], None;
      isRetryScheduled, handshakeDone, rejectWrites, retries := false, false, false, 0;
      accepted, lost, stopped := [], [], false;
    }

    method Write(m: nat)
      requires Valid()
      modifies this, port
      ensures Valid()
      ensures accepted == if old(rejectWrites) then old(accepted) else old(accepted) + [m]
      ensures stopped == old(stopped)
      ensures old(handshakeDone) && !old(rejectWrites) ==> port.attempts > old(port.attempts)
      ensures old(port.queue) <= port.queue
    {
      if rejectWrites { return; }
      accepted := accepted + [m];
      if !handshakeDone {
        pending := pending + [m];
        return;
      }
      if sendBuffer.Some? || pending != [] {
        pending := pending + [m];
        SendPendingMessages();
        return;
      }
      var _ := SendMessage(m, []);
    }

    /** Sends the buffered message first, then the waiting ones until one does not go. */
    method SendPendingMessages()
      requires Conserved(pending) && handshakeDone && (sendBuffer.Some? ==> port.full)
      requires retries == (if isRetryScheduled then 1 else 0)
      modifies this, port
      ensures Valid() && accepted == old(accepted) && handshakeDone && stopped == old(stopped)
      ensures (old(sendBuffer).Some? || old(pending) != []) && !old(rejectWrites) ==> port.attempts > old(port.attempts)
      ensures old(port.queue) <= port.queue
    {
      if sendBuffer.Some? && !rejectWrites {
        var sent := MachMessageSend(sendBuffer.value, pending);
        if !sent { return; }
      }
      while pending != [] && !rejectWrites
        invariant Conserved(pending) && Scheduled() && handshakeDone
        invariant sendBuffer.Some? ==> rejectWrites
        invariant accepted == old(accepted) && stopped == old(stopped) && old(port.queue) <= port.queue
        invariant port.attempts >= old(port.attempts)
        invariant port.attempts == old(port.attempts) ==> pending == old(pending) && rejectWrites == old(rejectWrites)
                                                          && (rejectWrites || old(sendBuffer).None?)
        decreases |pending|
      {
        var m := pending[0];
        assert [m] + pending[1..] == pending;
        var sent := SendMessage(m, pending[1..]);
        pending := pending[1..];
        if !sent { break; }
      }
    }

    /** Entered only with the buffer empty; `waiting` is what comes after this message. */
    method SendMessage(m: nat, ghost waiting: seq<nat>) returns (sent: bool)
      requires sendBuffer.None? && handshakeDone && !rejectWrites
      requires Conserved([m] + waiting) && Scheduled()
      modifies this, port
      ensures Conserved(waiting) && Scheduled() && handshakeDone
      ensures pending == old(pending) && accepted == old(accepted) && stopped == old(stopped)
      ensures old(port.queue) <= port.queue && port.attempts > old(port.attempts)
      ensures sent ==> sendBuffer.None? && !rejectWrites
      ensures !sent ==> sendBuffer.Some? || rejectWrites || port.dead
      ensures old(port.fileports) != [] && !old(port.fileports)[0] ==>
        !sent && rejectWrites && port.queue == old(port.queue) && lost == old(lost) + [m]
    {
      var made := port.MakeDescriptors();
      if !made {
        lost := lost + [m];
        rejectWrites := true;
        return false;
      }
      sent := MachMessageSend(m, waiting);
    }

    /** Sends what is in the buffer: the message that was kept there, or a new one just put into it. */
    method MachMessageSend(m: nat, ghost waiting: seq<nat>) returns (sent: bool)
      requires handshakeDone && !rejectWrites && retries == (if isRetryScheduled then 1 else 0)
      requires sendBuffer == Some(m) || sendBuffer.None?
      requires port.queue + lost + [m] + waiting == accepted && (lost != [] ==> port.dead)
      modifies this, port
      ensures Conserved(waiting) && Scheduled() && handshakeDone
      ensures pending == old(pending) && accepted == old(accepted) && stopped == old(stopped)
      ensures old(port.queue) <= port.queue && port.attempts > old(port.attempts)
      ensures sent ==> sendBuffer.None? && !rejectWrites
      ensures !sent ==> sendBuffer.Some? || rejectWrites || port.dead
    {
      var r := port.Send(m);
      if !r.Sent? {
        if r.TimedOut? {
          sendBuffer := Some(m);
          if !isRetryScheduled {
            retries := retries + 1;
            isRetryScheduled := true;
          }
        } else {
          sendBuffer := None;
          lost := lost + [m];
          if !r.InvalidDest? { rejectWrites := true; }
        }
        return false;
      }
      sendBuffer := None;
      return true;
    }

    method RetrySendPendingMessages()
      requires Valid() && retries > 0
      modifies this, port
      ensures Valid() && accepted == old(accepted) && stopped == old(stopped)
      ensures old(port.queue) <= port.queue
      ensures old(sendBuffer).Some? && !old(rejectWrites) ==> port.attempts > old(port.attempts)
    {
      retries := retries - 1;
      isRetryScheduled := false;
      SendPendingMessages();
    }

    /** The end of `SendHandshake` and of `ReceiveHandshake`. */
    method FinishHandshake()
      requires Valid()
      modifies this, port
      ensures Valid() && handshakeDone && accepted == old(accepted) && stopped == old(stopped)
      ensures old(pending) != [] && !old(rejectWrites) ==> port.attempts > old(port.attempts)
      ensures old(port.queue) <= port.queue
    {
      handshakeDone := true;
      SendPendingMessages();
    }

    /** `OnWriteErrorLocked`, and the part of the shutdown that holds the lock. */
    method RejectWrites()
      requires Valid()
      modifies this
      ensures Valid() && rejectWrites && accepted == old(accepted)
    {
      rejectWrites, stopped := true, true;
    }
  }
}
