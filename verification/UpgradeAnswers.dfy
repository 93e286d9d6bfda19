/** What the handshake answers, and what the answers and errors do to later writes. */
module UpgradeAnswers {
  import opened Basics
  import opened Upgrade
  import opened UpgradeProof
  import opened UpgradeTheorems
  import opened UpgradeDelivery

  // ---- making an offer ----

  /** An offer is made exactly if writes are not rejected and the kernel gave everything; its memory is empty. */
  lemma OfferIsMade(v: View, made: bool)
    requires ViewInv(v) && v.me.phase.Claimed?
    ensures var w := CreateOffer(v, made);
      if made && !v.me.rejectWrites then
        && Enabled(w, StepSend) && w.me.writeBuffer.Some? && w.me.writeNotifier.Some? && w.peer == v.peer
        && var (mem, event) := (w.me.writeBuffer.value, w.me.writeNotifier.value);
        && mem != event && w.kernel.memories == v.kernel.memories[mem := []]
        && RingOf(w.me, w.kernel) == [] && RingOf(w.peer, w.kernel) == RingOf(v.peer, v.kernel)
        && w.kernel.signalled == v.kernel.signalled && event !in v.kernel.signalled
        && Act(w, StepSend).me.wire == v.me.wire + [Offer(mem, event, v.me.cfg.pages)]
        && Act(w, StepSend).me.phase.Finished?
      else
        w.kernel == v.kernel && w.me.phase.Finished? && w.me.writeBuffer.None? && w.me.wire == v.me.wire
  {
  }

  /** A callback that finds the ring empty does nothing but clear the event. */
  lemma EmptyRingClearsEvent(v: View, luck: Luck)
    requires ViewInv(v) && Enabled(v, StepReadRing(luck)) && RingOf(v.peer, v.kernel) == []
    ensures var event := v.me.readNotifier.value;
      Act(v, StepReadRing(luck)) == v.(kernel := v.kernel.(signalled := v.kernel.signalled - {event}))
  {
    SignalledReaderHasBuffer(v);
    hide ViewInv;
  }

  // ---- an offer ----

  /** How often a side has put `x` on the socket or into its ring without its being taken yet. */
  function Sent(v: View, x: Message): nat { Count(v.me.wire, x) + Count(RingOf(v.me, v.kernel), x) }

  /** What a side that may use its ring needs. */
  predicate Equipped(v: View) {
    && Tied(v)
    && (v.me.sharedMemWriter ==>
          && v.me.writeBuffer.Some? && v.me.writeBuffer.value in v.kernel.memories && v.me.writeNotifier.Some?)
  }

  lemma ReplyIsSent(v: View, x: Message, fits: bool, y: Message)
    requires Equipped(v)
    ensures var w := Reply(v, x, fits);
      && Sent(w, y) == Sent(v, y) + (if x == y then 1 else 0) && Equipped(w)
      && w.peer == v.peer && w.me == v.me.(wire := w.me.wire)
  {
    hide Count, Append;
    if UsesSocket(v.me, false) || !fits {
      CountOfAppend(v.me.wire, x, y);
    } else {
      AppendToRing(v, x, y);
      AppendKeepsKeys(v.kernel, v.me.writeBuffer.value, x);
    }
  }

  lemma AppendKeepsKeys(k: Kernel, mem: nat, x: Message)
    requires mem in k.memories
    ensures Append(k, mem, x).memories.Keys == k.memories.Keys
  {
  }

  lemma InstallAnswers(v: View, mem: nat, event: nat, luck: Luck, y: Message)
    requires Equipped(v)
    ensures var (w, answer) := (Install(v, mem, event, luck), if luck.mapped then Accept else Reject);
      && Sent(w, y) == Sent(v, y) + (if answer == y then 1 else 0)
      && w.me.readNotifier == Some(event) && w.me.readBuffer == (if luck.mapped then Some(mem) else v.me.readBuffer)
      && (luck.mapped && v.me.cfg.linux ==> w.me.offered)
  {
    hide Reply, Count;
    var x := v.(me := v.me.(readNotifier := Some(event)));
    ReplyIsSent(x, Reject, luck.secondFits, y);
    ReplyIsSent(x.(me := x.me.(readBuffer := Some(mem))), Accept, luck.secondFits, y);
  }

  lemma EquippedByInv(v: View)
    requires ViewInv(v) && !v.me.shutDown
    ensures Equipped(v)
  {
  }

  /**
   Every offer that is taken off the socket is answered: accepted if the memory is sealed and could be mapped, and
   then the side has its buffer and offers in turn; else rejected.  A bad number of pages adds a reject.
   */
  lemma OfferIsAnswered(v: View, luck: Luck, y: Message)
    requires ViewInv(v) && Enabled(v, StepReceive(luck)) && v.peer.wire[0].Offer?
    ensures var (w, o) := (Act(v, StepReceive(luck)), v.peer.wire[0]);
      var sealed := v.me.cfg.linux && luck.sealed;
      var accepted := sealed && luck.mapped;
      var rejects := (if accepted then 0 else 1) + (if sealed && o.pages > 128 then 1 else 0);
      && (y.Accept? ==> Sent(w, y) == Sent(v, y) + if accepted then 1 else 0)
      && (y.Reject? ==> Sent(w, y) == Sent(v, y) + rejects)
      && w.me.readBuffer == (if accepted then Some(o.mem) else None)
      && w.me.readNotifier == (if sealed then Some(o.event) else None)
      && (accepted ==> w.me.offered)
  {
    EquippedByInv(v);
    TakeOfferKeepsInv(v);
    hide ViewInv, OnOffer, Sent;
    SentFrame(v, PopWire(v), y);
    OnOfferAnswers(PopWire(v), v.peer.wire[0], luck, y);
  }

  lemma OnOfferAnswers(v: View, o: Message, luck: Luck, y: Message)
    requires Equipped(v) && o.Offer? && o.pages > 0 && v.me.readBuffer.None? && v.me.readNotifier.None?
    ensures var w := OnOffer(v, o, luck);
      var sealed := v.me.cfg.linux && luck.sealed;
      var accepted := sealed && luck.mapped;
      var rejects := (if accepted then 0 else 1) + (if sealed && o.pages > 128 then 1 else 0);
      && (y.Accept? ==> Sent(w, y) == Sent(v, y) + if accepted then 1 else 0)
      && (y.Reject? ==> Sent(w, y) == Sent(v, y) + rejects)
      && w.me.readBuffer == (if accepted then Some(o.mem) else None)
      && w.me.readNotifier == (if sealed then Some(o.event) else None)
      && (accepted ==> w.me.offered)
  {
    hide Reply, Install, Sent;
    SentFrame(v, Counted(v), y);
    var early := Reply(Counted(v), Reject, luck.firstFits);
    ReplyIsSent(Counted(v), Reject, luck.firstFits, y);
    InstallAnswers(if o.pages > 128 then early else Counted(v), o.mem, o.event, luck, y);
  }

  lemma SentFrame(v: View, w: View, y: Message)
    requires w.me.wire == v.me.wire && w.me.log.offer == v.me.log.offer && w.kernel == v.kernel
    ensures Sent(w, y) == Sent(v, y)
  {
  }

  // ---- an answer ----

  /** A reply has its effect whether it came over the socket or through the ring. */
  lemma ReplyTakesEffect(v: View, step: Step, x: Message)
    requires ViewInv(v) && Enabled(v, step) && IsReply(x) && TakesIt(v, step, x) == 1 && v.me.cfg.linux
    ensures var w := Act(v, step);
      var ready := v.me.writeBuffer.Some? && v.me.writeNotifier.Some?;
      && (w.me.sharedMemWriter <==> x.Accept? && ready)
      && (w.me.sharedMemWriter ==> w.me.writeBuffer == v.me.writeBuffer && w.me.writeNotifier == v.me.writeNotifier)
      && (!w.me.sharedMemWriter ==> w.me.writeBuffer.None? && w.me.writeNotifier.None?)
      && w.me.wire == v.me.wire && w.me.writers == v.me.writers
  {
    if step.StepReadRing? { SignalledReaderHasBuffer(v); }
    hide ViewInv;
  }

  // ---- later writes ----

  lemma TakingKeepsRejecting(v: View, m: Message, luck: Luck)
    ensures var w := OnMessage(v, m, luck); w.me.rejectWrites == v.me.rejectWrites && w.peer == v.peer
  {
    hide Reply, Install;
    if m.Offer? {
      InstallKeepsRejecting(Counted(v), m.mem, m.event, luck);
      ReplyKeepsRejecting(Counted(v), Reject, luck.firstFits);
      InstallKeepsRejecting(Reply(Counted(v), Reject, luck.firstFits), m.mem, m.event, luck);
    }
  }

  lemma ReplyKeepsRejecting(v: View, m: Message, fits: bool)
    ensures var w := Reply(v, m, fits); w.me.rejectWrites == v.me.rejectWrites && w.peer == v.peer
  {
    hide Append;
  }

  lemma InstallKeepsRejecting(v: View, mem: nat, event: nat, luck: Luck)
    ensures var w := Install(v, mem, event, luck); w.me.rejectWrites == v.me.rejectWrites && w.peer == v.peer
  {
    hide Append;
  }

  lemma StepKeepsRejecting(v: View, step: Step)
    requires Enabled(v, step)
    ensures var w := Act(v, step);
      && w.peer.rejectWrites == v.peer.rejectWrites
      && (w.me.rejectWrites <==> v.me.rejectWrites || step.StepWriteError? || step.StepShutDown?)
  {
    hide OnMessage, Append;
    if step.StepReceive? {
      TakingKeepsRejecting(PopWire(v), v.peer.wire[0], step.luck);
    } else if step.StepReadRing? && v.me.readBuffer.Some? && v.me.readBuffer.value in v.kernel.memories {
      var ring := v.kernel.memories[v.me.readBuffer.value];
      if ring != [] { TakingKeepsRejecting(PopRing(v), ring[0], step.luck); }
    }
  }

  /** After an error or a shutdown a side starts no write in shared memory again. */
  lemma {:induction false} ErrorStaysOnSocket(states: seq<System>, moves: seq<Move>, i: nat, j: nat, byA: bool)
    requires Run(states, moves) && i < j < |states| && moves[i].byA == byA
    requires moves[i].step.StepWriteError? || moves[i].step.StepShutDown?
    ensures var w := Look(states[j], byA).me;
      && w.rejectWrites
      && forall t, id, hasHandles ::
           StartWrite(w, t, id, hasHandles) == w.(wire := w.wire + [Data(id, hasHandles)])
    decreases j
  {
    hide Next, CanMove;
    assert CanMove(states[j - 1], moves[j - 1]);
    if i < j - 1 { ErrorStaysOnSocket(states, moves, i, j - 1, byA); }
    MoveKeepsRejecting(states[j - 1], moves[j - 1], byA);
  }

  lemma MoveKeepsRejecting(s: System, m: Move, byA: bool)
    requires CanMove(s, m)
    ensures Look(Next(s, m), byA).me.rejectWrites <==>
      Look(s, byA).me.rejectWrites || (m.byA == byA && (m.step.StepWriteError? || m.step.StepShutDown?))
  {
    hide Act;
    StepKeepsRejecting(Look(s, m.byA), m.step);
  }

  /**
   A write without handles by a side whose offer was accepted goes into the ring, with the event set, if it fits,
   and to the socket if not; one with handles, or of a side not yet accepted, goes to the socket.
   */
  lemma WriteTakesItsPath(v: View, t: nat, id: nat, hasHandles: bool)
    requires ViewInv(v) && t !in v.me.writers && !v.me.rejectWrites
    ensures var w := Act(v, StepStartWrite(t, id, hasHandles));
      if v.me.sharedMemWriter && v.me.cfg.linux && !hasHandles then
        && w.me == v.me.(writers := v.me.writers[t := Checked(id)]) && w.kernel == v.kernel
        && var (fit, full) := (Act(w, StepTryWrite(t, true)), Act(w, StepTryWrite(t, false)));
        && full.me.wire == v.me.wire + [Data(id, false)] && full.kernel == v.kernel
        && full.me.writers == v.me.writers
        && fit.me.wire == v.me.wire && RingOf(fit.me, fit.kernel) == RingOf(v.me, v.kernel) + [Data(id, false)]
        && Enabled(fit, StepNotify(t))
        && var u := Act(fit, StepNotify(t));
        && u.me == v.me && RingOf(u.me, u.kernel) == RingOf(v.me, v.kernel) + [Data(id, false)]
        && u.me.log.offer.Some? && u.me.log.offer.value.event in u.kernel.signalled
      else w == v.(me := v.me.(wire := v.me.wire + [Data(id, hasHandles)]))
  {
    EquippedByInv(v);
    EventsTiedByInv(v);
    hide ViewInv, Count;
    assert v.me.writers[t := Checked(id)] - {t} == v.me.writers;
    assert v.me.writers[t := Checked(id)][t := ToNotify] - {t} == v.me.writers;
  }

  // ---- who offers ----

  predicate MayOffer(s: Side) { s.cfg.linux && s.cfg.enabled && s.cfg.acceptHandles }

  /** A side that is about to offer, or has offered, is one that may. */
  predicate OfferRule(s: Side) {
    s.phase.Claimed? || s.phase.Created? || s.log.offer.Some? ==> MayOffer(s)
  }

  lemma ReplyKeepsRule(v: View, m: Message, fits: bool)
    ensures var w := Reply(v, m, fits).me;
      w.cfg == v.me.cfg && w.phase == v.me.phase && w.log.offer == v.me.log.offer
  {
    hide Append;
  }

  lemma TakingKeepsRule(v: View, m: Message, luck: Luck)
    requires OfferRule(v.me)
    ensures OfferRule(OnMessage(v, m, luck).me)
  {
    hide Reply, OnOffer;
    if m.Offer? {
      OnOfferCases(v, m, luck);
      var early := Reply(Counted(v), Reject, luck.firstFits);
      ReplyKeepsRule(Counted(v), Reject, luck.firstFits);
      InstallKeepsRule(Counted(v), m.mem, m.event, luck);
      InstallKeepsRule(early, m.mem, m.event, luck);
    }
  }

  lemma InstallKeepsRule(v: View, mem: nat, event: nat, luck: Luck)
    requires OfferRule(v.me)
    ensures OfferRule(Install(v, mem, event, luck).me)
  {
    hide Reply;
    var x := v.(me := v.me.(readNotifier := Some(event)));
    ReplyKeepsRule(x, Reject, luck.secondFits);
    ReplyKeepsRule(x.(me := x.me.(readBuffer := Some(mem))), Accept, luck.secondFits);
  }

  lemma StepKeepsRule(v: View, step: Step)
    requires Enabled(v, step) && OfferRule(v.me) && OfferRule(v.peer)
    ensures OfferRule(Act(v, step).me) && OfferRule(Act(v, step).peer)
  {
    hide OnMessage, Append;
    StepLeavesRest(v, step);
    PeerKeepsPhase(v, step);
    if step.StepReceive? {
      TakingKeepsRule(PopWire(v), v.peer.wire[0], step.luck);
    } else if step.StepReadRing? && v.me.readBuffer.Some? && v.me.readBuffer.value in v.kernel.memories {
      var ring := v.kernel.memories[v.me.readBuffer.value];
      if ring != [] { TakingKeepsRule(PopRing(v), ring[0], step.luck); }
    }
  }

  lemma PeerKeepsPhase(v: View, step: Step)
    requires Enabled(v, step)
    ensures Act(v, step).peer.phase == v.peer.phase
  {
    hide OnMessage, Append;
    if step.StepReceive? {
      TakingKeepsRejecting(PopWire(v), v.peer.wire[0], step.luck);
    } else if step.StepReadRing? && v.me.readBuffer.Some? && v.me.readBuffer.value in v.kernel.memories {
      var ring := v.kernel.memories[v.me.readBuffer.value];
      if ring != [] { TakingKeepsRejecting(PopRing(v), ring[0], step.luck); }
    }
  }

  /** In every run only a Linux channel with upgrades enabled that accepts handles offers its memory. */
  lemma {:induction false} OffersOnlyIfEnabled(states: seq<System>, moves: seq<Move>, i: nat)
    requires Run(states, moves) && i < |states|
    ensures OfferRule(states[i].a) && OfferRule(states[i].b)
  {
    if i > 0 {
      hide Next, CanMove, OfferRule;
      OffersOnlyIfEnabled(states, moves, i - 1);
      assert CanMove(states[i - 1], moves[i - 1]);
      MoveKeepsRule(states[i - 1], moves[i - 1]);
    }
  }

  lemma MoveKeepsRule(s: System, m: Move)
    requires CanMove(s, m) && OfferRule(s.a) && OfferRule(s.b)
    ensures OfferRule(Next(s, m).a) && OfferRule(Next(s, m).b)
  {
    hide Act, OfferRule;
    StepKeepsRule(Look(s, m.byA), m.step);
  }
}
