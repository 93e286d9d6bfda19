/** What the upgrade handshake guarantees over whole runs, both sides offering at will. */
module UpgradeTheorems {
  import opened Basics
  import opened Upgrade
  import opened UpgradeProof

  predicate Run(states: seq<System>, moves: seq<Move>) {
    && |states| == |moves| + 1 && Init(states[0])
    && forall i {:trigger moves[i]} :: 0 <= i < |moves| ==>
         CanMove(states[i], moves[i]) && states[i + 1] == Next(states[i], moves[i])
  }

  lemma InitInv(s: System)
    requires Init(s)
    ensures Inv(s)
  {
  }

  lemma {:induction false} RunKeepsInv(states: seq<System>, moves: seq<Move>, i: nat)
    requires Run(states, moves) && i < |states|
    ensures Inv(states[i]) && ViewInv(Look(states[i], true)) && ViewInv(Look(states[i], false))
  {
    hide Next, CanMove, ViewInv;
    if i == 0 {
      InitInv(states[0]);
    } else {
      RunKeepsInv(states, moves, i - 1);
      assert CanMove(states[i - 1], moves[i - 1]);
      MoveKeepsInv(states[i - 1], moves[i - 1]);
    }
    InvSymmetric(states[i]);
  }

  /**
   A side that writes to shared memory has a peer whose buffer and notifier are over the very memory
   and event descriptor this side created (a peer that has shut down has dropped its notifier).
   */
  lemma SharedWriterHasReader(states: seq<System>, moves: seq<Move>, i: nat, byA: bool)
    requires Run(states, moves) && i < |states| && Look(states[i], byA).me.sharedMemWriter
    ensures var v := Look(states[i], byA);
      && v.me.writeBuffer.Some? && v.peer.readBuffer == v.me.writeBuffer
      && (v.me.shutDown || v.me.writeNotifier.Some?)
      && (v.me.writeNotifier.Some? && !v.peer.shutDown ==> v.peer.readNotifier == v.me.writeNotifier)
  {
    hide Next, CanMove;
    RunKeepsInv(states, moves, i);
    SharedWriterIsReady(Look(states[i], byA));
  }

  /** Nothing lies in shared memory, and no event is raised, where no one reads. */
  lemma PublishedIsReadable(states: seq<System>, moves: seq<Move>, i: nat, byA: bool)
    requires Run(states, moves) && i < |states|
    ensures var v := Look(states[i], byA);
      Live(v.me, v.peer, v.kernel) ==> Installed(v.me, v.peer)
  {
    hide Next, CanMove;
    RunKeepsInv(states, moves, i);
  }

  /** Each side offers at most once, and an offer is handled at most once. */
  lemma OffersAtMostOnce(states: seq<System>, moves: seq<Move>, i: nat, byA: bool)
    requires Run(states, moves) && i < |states|
    ensures var v := Look(states[i], byA);
      v.me.log.offersSent <= 1 && Offers(v.me.wire) + v.peer.log.offersReceived == v.me.log.offersSent
  {
    hide Next, CanMove;
    RunKeepsInv(states, moves, i);
  }

  /** The `CHECK` at the head of `SharedMemReadReady` holds whenever the event loop calls it. */
  lemma ReadReadyFindsItsBuffer(states: seq<System>, moves: seq<Move>, i: nat, byA: bool, luck: Luck)
    requires Run(states, moves) && i < |states| && Enabled(Look(states[i], byA), StepReadRing(luck))
    ensures var v := Look(states[i], byA);
      v.me.readBuffer.Some? && v.me.readBuffer.value in v.kernel.memories
  {
    hide Next, CanMove;
    RunKeepsInv(states, moves, i);
    SignalledReaderHasBuffer(Look(states[i], byA));
  }

  // ---- after a reject ----

  predicate IsSuffix(x: seq<Message>, y: seq<Message>) {
    |x| <= |y| && x == y[|y| - |x|..]
  }

  /** Only the creator of a memory appends to it; all a reader does is take messages from its front. */
  predicate NothingAdded(before: Kernel, now: Kernel, mem: nat) {
    mem in before.memories ==> mem in now.memories && IsSuffix(now.memories[mem], before.memories[mem])
  }

  lemma ReplyAddsNothing(v: View, m: Message, fits: bool, mem: nat)
    requires v.me.writeBuffer != Some(mem)
    ensures NothingAdded(v.kernel, Reply(v, m, fits).kernel, mem)
  {
  }

  lemma NothingAddedTwice(a: Kernel, b: Kernel, c: Kernel, mem: nat)
    requires NothingAdded(a, b, mem) && NothingAdded(b, c, mem)
    ensures NothingAdded(a, c, mem)
  {
  }

  lemma InstallAddsNothing(v: View, mem0: nat, event: nat, luck: Luck, mem: nat)
    requires v.me.writeBuffer != Some(mem)
    ensures NothingAdded(v.kernel, Install(v, mem0, event, luck).kernel, mem)
  {
    hide Reply, NothingAdded;
    var x := v.(me := v.me.(readNotifier := Some(event)));
    ReplyAddsNothing(x, Reject, luck.secondFits, mem);
    ReplyAddsNothing(x.(me := x.me.(readBuffer := Some(mem0))), Accept, luck.secondFits, mem);
  }

  lemma OnMessageAddsNothing(v: View, m: Message, luck: Luck, mem: nat)
    requires v.me.writeBuffer != Some(mem)
    ensures NothingAdded(v.kernel, OnMessage(v, m, luck).kernel, mem)
  {
    assert NothingAdded(v.kernel, v.kernel, mem);
    if m.Offer? { OnOfferAddsNothing(v, m, luck, mem); }
  }

  function Counted(v: View): View {
    v.(me := v.me.(log := v.me.log.(offersReceived := v.me.log.offersReceived + 1)))
  }

  function Astray(v: View): View { v.(me := v.me.(log := v.me.log.(unexpected := true))) }

  /** An offer is not expected, answered, installed, or both in turn. */
  lemma OnOfferCases(v: View, x: Message, luck: Luck)
    requires x.Offer?
    ensures var (early, w) := (Reply(Counted(v), Reject, luck.firstFits), OnOffer(v, x, luck));
      || w == Astray(Counted(v)) || w == early
      || w == Install(Counted(v), x.mem, x.event, luck) || w == Install(early, x.mem, x.event, luck)
  {
    hide Reply, Install;
  }

  lemma OnOfferAddsNothing(v: View, m: Message, luck: Luck, mem: nat)
    requires v.me.writeBuffer != Some(mem) && m.Offer?
    ensures NothingAdded(v.kernel, OnOffer(v, m, luck).kernel, mem)
  {
    NothingAddedToSelf(v.kernel, mem);
    hide Reply, NothingAdded, Install, OnOffer;
    var taken := Counted(v);
    var early := Reply(taken, Reject, luck.firstFits);
    OnOfferCases(v, m, luck);
    ReplyAddsNothing(taken, Reject, luck.firstFits, mem);
    ReplyFrame(taken, Reject, luck.firstFits);
    InstallAddsNothing(early, m.mem, m.event, luck, mem);
    NothingAddedTwice(v.kernel, early.kernel, Install(early, m.mem, m.event, luck).kernel, mem);
    InstallAddsNothing(taken, m.mem, m.event, luck, mem);
  }

  lemma NothingAddedToSelf(k: Kernel, mem: nat)
    ensures NothingAdded(k, k, mem)
  {
  }

  lemma StepAddsNothing(v: View, step: Step, mem: nat)
    requires Enabled(v, step) && v.me.writeBuffer != Some(mem) && mem < v.kernel.nextId
    ensures NothingAdded(v.kernel, Act(v, step).kernel, mem)
  {
    hide OnMessage;
    if step.StepReceive? {
      OnMessageAddsNothing(PopWire(v), v.peer.wire[0], step.luck, mem);
    } else if step.StepReadRing? && v.me.readBuffer.Some? && v.me.readBuffer.value in v.kernel.memories {
      var ring := v.kernel.memories[v.me.readBuffer.value];
      if ring != [] { OnMessageAddsNothing(PopRing(v), ring[0], step.luck, mem); }
    }
  }

  predicate SameHistory(v: View, w: View) {
    && (v.me.log.offer.Some? ==> w.me.log.offer == v.me.log.offer) && (v.me.log.rejected ==> w.me.log.rejected)
    && w.peer.log.offer == v.peer.log.offer && w.peer.log.rejected == v.peer.log.rejected
  }

  lemma InstallKeepsHistory(v: View, mem: nat, event: nat, luck: Luck)
    ensures SameHistory(v, Install(v, mem, event, luck))
  {
    hide Reply;
    var x := v.(me := v.me.(readNotifier := Some(event)));
    ReplyFrame(x, Reject, luck.secondFits);
    ReplyFrame(x.(me := x.me.(readBuffer := Some(mem))), Accept, luck.secondFits);
  }

  lemma OnMessageKeepsHistory(v: View, m: Message, luck: Luck)
    ensures SameHistory(v, OnMessage(v, m, luck))
  {
    hide Reply, Install, OnReply;
    match m
    case Offer(mem, event, _) =>
      var taken := Counted(v);
      ReplyFrame(taken, Reject, luck.firstFits);
      InstallKeepsHistory(taken, mem, event, luck);
      InstallKeepsHistory(Reply(taken, Reject, luck.firstFits), mem, event, luck);
    case Data(_, _) =>
    case _ => OnReplyFrame(v.me, m);
  }

  lemma TakingKeepsHistory(v: View, step: Step)
    requires Enabled(v, step) && (step.StepReceive? || step.StepReadRing?)
    ensures SameHistory(v, Act(v, step))
  {
    hide OnMessage;
    if step.StepReceive? {
      OnMessageKeepsHistory(PopWire(v), v.peer.wire[0], step.luck);
    } else if v.me.readBuffer.Some? && v.me.readBuffer.value in v.kernel.memories {
      var ring := v.kernel.memories[v.me.readBuffer.value];
      if ring != [] { OnMessageKeepsHistory(PopRing(v), ring[0], step.luck); }
    }
  }

  lemma StepKeepsHistory(v: View, step: Step)
    requires Enabled(v, step) && (v.me.log.offer.Some? ==> !v.me.phase.Claimed?)
    ensures SameHistory(v, Act(v, step))
  {
    hide OnMessage, ReadRing, CreateOffer, TryWrite, Notify;
    match step
    case StepClaim =>
    case StepCreate(made) => CreateKeepsHistory(v, made);
    case StepSend =>
    case StepStartWrite(t, id, hasHandles) =>
    case StepTryWrite(t, fits) => TryWriteKeepsHistory(v, t, Data(v.me.writers[t].id, false), fits);
    case StepNotify(t) => NotifyKeepsHistory(v, t);
    case StepReceive(luck) => TakingKeepsHistory(v, step);
    case StepReadRing(luck) => TakingKeepsHistory(v, step);
    case StepWriteError =>
    case StepShutDown =>
  }

  lemma CreateKeepsHistory(v: View, made: bool)
    requires v.me.log.offer.Some? ==> !v.me.phase.Claimed?
    ensures v.me.phase.Claimed? ==> SameHistory(v, CreateOffer(v, made))
  {
  }

  lemma TryWriteKeepsHistory(v: View, t: nat, m: Message, fits: bool)
    ensures SameHistory(v, TryWrite(v, t, m, fits))
  {
  }

  lemma NotifyKeepsHistory(v: View, t: nat)
    ensures SameHistory(v, Notify(v, t))
  {
  }

  /** A rejected side has an offer behind it and has given up its buffer. */
  lemma RejectedSide(v: View)
    requires ViewInv(v) && v.me.log.rejected
    ensures v.me.log.offer.Some? && v.me.log.offer.value.mem in v.kernel.memories
        && v.me.log.offer.value.mem < v.kernel.nextId
    ensures !v.me.sharedMemWriter && v.me.writeBuffer.None?
    ensures v.me.phase.Finished? && v.peer.writeBuffer != Some(v.me.log.offer.value.mem)
    ensures v.peer.log.offer.Some? ==> !v.peer.phase.Claimed?
  {
  }

  /**
   From the moment a side has been rejected it writes to the socket alone: every write is put on the
   socket at once, and its ring, if it has one, only shrinks.
   */
  lemma {:induction false} RejectedStaysOnSocket(states: seq<System>, moves: seq<Move>, i: nat, j: nat, byA: bool)
    requires Run(states, moves) && i <= j < |states| && Look(states[i], byA).me.log.rejected
    ensures var v, w := Look(states[i], byA), Look(states[j], byA);
      && w.me.log.rejected && w.me.log.offer == v.me.log.offer
      && IsSuffix(RingOf(w.me, w.kernel), RingOf(v.me, v.kernel))
      && forall t, id, hasHandles ::
           StartWrite(w.me, t, id, hasHandles) == w.me.(wire := w.me.wire + [Data(id, hasHandles)])
    decreases j
  {
    hide Next, CanMove, ViewInv, RingOf;
    RunKeepsInv(states, moves, j);
    if i < j {
      RejectedStaysOnSocket(states, moves, i, j - 1, byA);
      RunKeepsInv(states, moves, j - 1);
      assert CanMove(states[j - 1], moves[j - 1]);
      RejectedMove(states[j - 1], moves[j - 1], byA);
    }
    RejectedSide(Look(states[j], byA));
  }

  lemma RejectedMove(s: System, m: Move, byA: bool)
    requires ViewInv(Look(s, true)) && ViewInv(Look(s, false)) && CanMove(s, m) && Look(s, byA).me.log.rejected
    ensures var v, w := Look(s, byA), Look(Next(s, m), byA);
      w.me.log.rejected && w.me.log.offer == v.me.log.offer && IsSuffix(RingOf(w.me, w.kernel), RingOf(v.me, v.kernel))
  {
    hide ViewInv, Act;
    var v := Look(s, byA);
    RejectedSide(v);
    var mover := Look(s, m.byA);
    StepAddsNothing(mover, m.step, v.me.log.offer.value.mem);
    StepKeepsHistory(mover, m.step);
  }

  // ---- the branches for messages a peer must not send ----

  /** With a valid number of pages no unexpected message arrives and no missing buffer or notifier is used. */
  lemma ValidPagesAreClean(states: seq<System>, moves: seq<Move>, i: nat, byA: bool)
    requires Run(states, moves) && i < |states| && Look(states[i], byA).me.cfg.pages <= 128
    ensures var me := Look(states[i], byA).me;
      && !me.log.unexpected && (me.log.crashed ==> me.shutDown)
      && (me.log.rejected ==> me.writers.Keys == {})
  {
    hide Next, CanMove;
    RunKeepsInv(states, moves, i);
  }

  // ---- shutting down in the middle of a write ----

  lemma InstallLeavesRest(v: View, mem: nat, event: nat, luck: Luck)
    ensures var w := Install(v, mem, event, luck);
      w.peer == v.peer && w.me.cfg == v.me.cfg && w.me.shutDown == v.me.shutDown
  {
    hide Append;
  }

  lemma ReplyLeavesRest(v: View, m: Message, fits: bool)
    ensures var w := Reply(v, m, fits); w.peer == v.peer && w.me.cfg == v.me.cfg && w.me.shutDown == v.me.shutDown
  {
    hide Append;
  }

  lemma OnMessageLeavesRest(v: View, m: Message, luck: Luck)
    ensures var w := OnMessage(v, m, luck);
      w.peer == v.peer && w.me.cfg == v.me.cfg && w.me.shutDown == v.me.shutDown
  {
    hide Reply, Install;
    match m
    case Offer(mem, event, _) =>
      var taken := Counted(v);
      ReplyLeavesRest(taken, Reject, luck.firstFits);
      InstallLeavesRest(taken, mem, event, luck);
      InstallLeavesRest(Reply(taken, Reject, luck.firstFits), mem, event, luck);
    case _ =>
  }

  /** A step changes no setting, nothing of the peer but its wire, and shuts no side down but by `StepShutDown`. */
  lemma StepLeavesRest(v: View, step: Step)
    requires Enabled(v, step)
    ensures var w := Act(v, step);
      && w.peer.log == v.peer.log && w.peer.cfg == v.peer.cfg && w.peer.shutDown == v.peer.shutDown
      && w.me.cfg == v.me.cfg && w.me.shutDown == (v.me.shutDown || step.StepShutDown?)
  {
    hide OnMessage, Append;
    if step.StepReceive? {
      OnMessageLeavesRest(PopWire(v), v.peer.wire[0], step.luck);
    } else if step.StepReadRing? && v.me.readBuffer.Some? && v.me.readBuffer.value in v.kernel.memories {
      var ring := v.kernel.memories[v.me.readBuffer.value];
      if ring != [] { OnMessageLeavesRest(PopRing(v), ring[0], step.luck); }
    }
  }

  /** With a valid number of pages only the notifier can be missing, and only to a write that outlives the shutdown. */
  lemma CrashStepIff(v: View, step: Step)
    requires ViewInv(v) && Enabled(v, step) && v.me.cfg.pages <= 128
    ensures Act(v, step).me.log.crashed <==> v.me.log.crashed || (step.StepNotify? && v.me.shutDown)
  {
    hide OfferInv, ReplyInv, OnMessage, CreateOffer, Append;
    StepLeavesRest(v, step);
    ActKeepsInv(v, step);
    if !step.StepTryWrite? && !step.StepNotify? && !step.StepReceive? && !step.StepReadRing? {
      CrashOfOtherSteps(v, step);
    }
    if step.StepTryWrite? || step.StepNotify? { WritingThreadIsReady(v); }
  }

  lemma CrashOfOtherSteps(v: View, step: Step)
    requires Enabled(v, step) && !step.StepTryWrite? && !step.StepNotify? && !step.StepReceive? && !step.StepReadRing?
    ensures Act(v, step).me.log.crashed == v.me.log.crashed
  {
    hide OnMessage, ReadRing, TryWrite, Notify, CreateOffer, Enabled;
    if step.StepCreate? { CreateDoesNotCrash(v, step.made); }
  }

  lemma CreateDoesNotCrash(v: View, made: bool)
    ensures CreateOffer(v, made).me.log.crashed == v.me.log.crashed
  {
  }

  /** Step `j` is the `Notify` of a write by a side that has been shut down since the write chose shared memory. */
  predicate NotifiesAfterShutDown(states: seq<System>, moves: seq<Move>, j: nat, byA: bool)
    requires |states| == |moves| + 1 && j < |moves|
  {
    moves[j].byA == byA && moves[j].step.StepNotify? && Look(states[j], byA).me.shutDown
  }

  /** One of the first `i` steps is such a `Notify`. */
  predicate NotifiedLate(states: seq<System>, moves: seq<Move>, i: nat, byA: bool)
    requires |states| == |moves| + 1 && i <= |moves|
  {
    exists j: nat :: j < i && NotifiesAfterShutDown(states, moves, j, byA)
  }

  lemma NotifiedLateNext(states: seq<System>, moves: seq<Move>, i: nat, byA: bool)
    requires |states| == |moves| + 1 && i < |moves|
    ensures NotifiedLate(states, moves, i + 1, byA)
      <==> NotifiedLate(states, moves, i, byA) || NotifiesAfterShutDown(states, moves, i, byA)
  {
    hide NotifiesAfterShutDown;
  }

  lemma CrashMoveIff(s: System, m: Move, byA: bool)
    requires ViewInv(Look(s, true)) && ViewInv(Look(s, false)) && CanMove(s, m) && Look(s, byA).me.cfg.pages <= 128
    ensures var (v, w) := (Look(s, byA), Look(Next(s, m), byA));
      && w.me.cfg == v.me.cfg
      && (w.me.log.crashed <==> v.me.log.crashed || (m.byA == byA && m.step.StepNotify? && v.me.shutDown))
  {
    hide ViewInv, Act;
    StepLeavesRest(Look(s, m.byA), m.step);
    if m.byA == byA { CrashStepIff(Look(s, m.byA), m.step); }
  }

  /**
   In a run of a side with a valid number of pages a missing buffer or notifier is used if and only if a write
   of that side gets to its `Notify` after the side was shut down.
   */
  lemma {:induction false} CrashedIff(states: seq<System>, moves: seq<Move>, i: nat, byA: bool)
    requires Run(states, moves) && i < |states| && Look(states[0], byA).me.cfg.pages <= 128
    ensures Look(states[i], byA).me.cfg == Look(states[0], byA).me.cfg
    ensures Look(states[i], byA).me.log.crashed <==> NotifiedLate(states, moves, i, byA)
  {
    if i == 0 {
      assert Init(states[0]);
    } else {
      hide Next, CanMove, ViewInv, Look, Init;
      CrashedIff(states, moves, i - 1, byA);
      RunKeepsInv(states, moves, i - 1);
      assert CanMove(states[i - 1], moves[i - 1]);
      CrashMoveIff(states[i - 1], moves[i - 1], byA);
      NotifiedLateNext(states, moves, i - 1, byA);
    }
  }

  // ---- runs that end badly ----

  predicate Ends(states: seq<System>, moves: seq<Move>, s: System) {
    Run(states, moves) && states[|moves|] == s
  }

  /** Some run ends in `s`. */
  ghost predicate Reached(s: System) {
    exists states: seq<System>, moves: seq<Move> :: Ends(states, moves, s)
  }

  lemma ReachedStart(s: System)
    requires Init(s)
    ensures Reached(s)
  {
    assert Ends([s], [], s);
  }

  lemma ReachedNext(s: System, m: Move)
    requires Reached(s) && CanMove(s, m)
    ensures Reached(Next(s, m))
  {
    hide Init, Next, CanMove;
    var states: seq<System>, moves: seq<Move> :| Ends(states, moves, s);
    assert Ends(states + [Next(s, m)], moves + [m], Next(s, m));
  }

  /** A start with two Linux sides, the second of them not offering. */
  function Start(pages: nat): System {
    System(NewSide(Config(true, true, true, pages)), NewSide(Config(true, false, true, pages)), Kernel(map[], {}, 0))
  }

  /** The first side of `Start` has sent its offer. */
  predicate HasOffered(s: System, pages: nat) {
    && s.a.cfg == Config(true, true, true, pages) && s.a.wire == [Offer(0, 1, pages)] && !s.a.shutDown
    && s.a.writeBuffer == Some(0) && s.a.writeNotifier.Some? && 0 in s.kernel.memories && s.a.writers == map[]
    && !s.a.rejectWrites && s.b == Start(pages).b
  }

  lemma OfferReached(pages: nat) returns (s: System)
    requires 0 < pages
    ensures Reached(s) && HasOffered(s, pages)
  {
    hide Reached;
    s := Start(pages);
    ReachedStart(s);
    ReachedNext(s, Move(true, StepClaim));
    s := Next(s, Move(true, StepClaim));
    ReachedNext(s, Move(true, StepCreate(true)));
    s := Next(s, Move(true, StepCreate(true)));
    ReachedNext(s, Move(true, StepSend));
    s := Next(s, Move(true, StepSend));
    assert s.a.wire == [Offer(0, 1, pages)];
  }

  /** The first side of `Start` has been accepted and is ready to write. */
  predicate Ready(s: System, pages: nat) {
    && s.a.cfg == Config(true, true, true, pages) && s.a.sharedMemWriter && !s.a.rejectWrites
    && s.a.writeBuffer == Some(0) && 0 in s.kernel.memories && s.a.writers == map[] && !s.a.shutDown
  }

  lemma GoodPagesAccepted(s: System, pages: nat, luck: Luck)
    requires 0 < pages <= 128 && luck == Luck(true, true, true, true) && HasOffered(s, pages)
    ensures var m := Move(false, StepReceive(luck));
      && CanMove(s, m)
      && var t := Next(s, m); t.b.wire == [Accept] && t.a == s.a.(wire := []) && t.kernel == s.kernel
  {
    assert [] + [Accept] == [Accept];
  }

  lemma TakesAccept(s: System, pages: nat, luck: Luck)
    requires s.b.wire == [Accept] && !s.a.shutDown && s.a.cfg == Config(true, true, true, pages) && !s.a.rejectWrites
    requires s.a.writeBuffer == Some(0) && s.a.writeNotifier.Some? && 0 in s.kernel.memories && s.a.writers == map[]
    ensures var m := Move(true, StepReceive(luck)); CanMove(s, m) && Ready(Next(s, m), pages)
  {
  }

  lemma ReadyReached(pages: nat) returns (s: System)
    requires 0 < pages <= 128
    ensures Reached(s) && Ready(s, pages)
  {
    hide Reached, Next, CanMove;
    var luck := Luck(true, true, true, true);
    s := OfferReached(pages);
    GoodPagesAccepted(s, pages, luck);
    ReachedNext(s, Move(false, StepReceive(luck)));
    s := Next(s, Move(false, StepReceive(luck)));
    TakesAccept(s, pages, luck);
    ReachedNext(s, Move(true, StepReceive(luck)));
    s := Next(s, Move(true, StepReceive(luck)));
  }

  lemma WriteOutlivesShutDown(s: System, pages: nat)
    requires Ready(s, pages)
    ensures var (m0, m1) := (Move(true, StepStartWrite(0, 0, false)), Move(true, StepTryWrite(0, true)));
      var (m2, m3) := (Move(true, StepShutDown), Move(true, StepNotify(0)));
      && CanMove(s, m0) && CanMove(Next(s, m0), m1) && CanMove(Next(Next(s, m0), m1), m2)
      && CanMove(Next(Next(Next(s, m0), m1), m2), m3)
      && var t := Next(Next(Next(Next(s, m0), m1), m2), m3); t.a.log.crashed && t.a.cfg == s.a.cfg
  {
  }

  /** Every valid number of pages has a run in which a write gets to its `Notify` after the shutdown. */
  lemma ShutDownCanCrash(pages: nat)
    requires 0 < pages <= 128
    ensures exists t :: Reached(t) && t.a.cfg.pages == pages && t.a.log.crashed
  {
    hide Reached, Next, CanMove;
    var s := ReadyReached(pages);
    WriteOutlivesShutDown(s, pages);
    ReachedNext(s, Move(true, StepStartWrite(0, 0, false)));
    s := Next(s, Move(true, StepStartWrite(0, 0, false)));
    ReachedNext(s, Move(true, StepTryWrite(0, true)));
    s := Next(s, Move(true, StepTryWrite(0, true)));
    ReachedNext(s, Move(true, StepShutDown));
    s := Next(s, Move(true, StepShutDown));
    ReachedNext(s, Move(true, StepNotify(0)));
    s := Next(s, Move(true, StepNotify(0)));
  }

  /**
   Because the branch for a bad number of pages does not return, an offer of more than 128 pages is
   rejected and then accepted, and only such an offer can bring its sender into the branch for an
   unexpected UPGRADE_ACCEPT.
   */
  lemma UnexpectedAcceptIff(pages: nat)
    requires 0 < pages
    ensures (exists t :: Reached(t) && t.a.cfg.pages == pages && t.a.log.unexpected) <==> pages > 128
  {
    hide Run;
    if pages > 128 {
      RejectedThenAccepted(pages);
    } else {
      forall t | Reached(t) && t.a.cfg.pages == pages ensures !t.a.log.unexpected {
        var states: seq<System>, moves: seq<Move> :| Ends(states, moves, t);
        EndsClean(states, moves, t);
      }
    }
  }

  lemma EndsClean(states: seq<System>, moves: seq<Move>, s: System)
    requires Ends(states, moves, s) && s.a.cfg.pages <= 128
    ensures !s.a.log.unexpected
  {
    hide Next, CanMove;
    ValidPagesAreClean(states, moves, |moves|, true);
  }

  lemma RejectedThenAccepted(pages: nat)
    requires pages > 128
    ensures exists t :: Reached(t) && t.a.cfg.pages == pages && t.a.log.unexpected
  {
    hide Reached, Next, CanMove;
    var luck := Luck(true, true, true, true);
    var s := OfferReached(pages);
    BadPagesAnsweredTwice(s, pages, luck);
    ReachedNext(s, Move(false, StepReceive(luck)));
    s := Next(s, Move(false, StepReceive(luck)));
    TakesReject(s, luck);
    ReachedNext(s, Move(true, StepReceive(luck)));
    s := Next(s, Move(true, StepReceive(luck)));
    TakesUnexpectedAccept(s, luck);
    ReachedNext(s, Move(true, StepReceive(luck)));
    s := Next(s, Move(true, StepReceive(luck)));
  }

  lemma BadPagesAnsweredTwice(s: System, pages: nat, luck: Luck)
    requires pages > 128 && luck == Luck(true, true, true, true) && HasOffered(s, pages)
    ensures var m := Move(false, StepReceive(luck));
      && CanMove(s, m)
      && var t := Next(s, m); t.b.wire == [Reject, Accept] && t.a == s.a.(wire := [])
  {
    assert [] + [Reject] + [Accept] == [Reject, Accept];
  }

  lemma TakesReject(s: System, luck: Luck)
    requires s.b.wire == [Reject, Accept] && !s.a.shutDown && s.a.cfg.linux
    ensures var m := Move(true, StepReceive(luck));
      && CanMove(s, m)
      && var t := Next(s, m); t.b.wire == [Accept] && t.a.writeBuffer.None? && t.a.cfg == s.a.cfg && !t.a.shutDown
  {
  }

  lemma TakesUnexpectedAccept(s: System, luck: Luck)
    requires s.b.wire == [Accept] && !s.a.shutDown && s.a.cfg.linux && s.a.writeBuffer.None?
    ensures var m := Move(true, StepReceive(luck));
      && CanMove(s, m)
      && var t := Next(s, m); t.a.log.unexpected && t.a.cfg == s.a.cfg
  {
  }
}
