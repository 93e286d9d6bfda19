/** What every step of the upgrade handshake keeps. */
module UpgradeProof {
  import opened Basics
  import opened Upgrade

  predicate IsReply(m: Message) { m.Accept? || m.Reject? }

  function Offers(ms: seq<Message>): nat {
    if ms == [] then 0 else (if ms[0].Offer? then 1 else 0) + Offers(ms[1..])
  }

  function Replies(ms: seq<Message>): nat {
    if ms == [] then 0 else (if IsReply(ms[0]) then 1 else 0) + Replies(ms[1..])
  }

  lemma {:induction false} CountAppend(ms: seq<Message>, m: Message)
    ensures Offers(ms + [m]) == Offers(ms) + (if m.Offer? then 1 else 0)
    ensures Replies(ms + [m]) == Replies(ms) + (if IsReply(m) then 1 else 0)
  {
    if ms == [] {
      assert ms + [m] == [m];
    } else {
      assert (ms + [m])[1..] == ms[1..] + [m];
      CountAppend(ms[1..], m);
    }
  }

  lemma {:induction false} CountMember(ms: seq<Message>, m: Message)
    requires m in ms
    ensures m.Offer? ==> Offers(ms) > 0
    ensures IsReply(m) ==> Replies(ms) > 0
  {
    if ms[0] != m {
      CountMember(ms[1..], m);
    }
  }

  /** The memory a side created, as a queue of messages. */
  function RingOf(s: Side, k: Kernel): seq<Message> {
    if s.log.offer.Some? && s.log.offer.value.mem in k.memories then k.memories[s.log.offer.value.mem] else []
  }

  /** Everything a side needs for its ring to be read at the other end. */
  predicate Installed(me: Side, peer: Side) {
    && me.log.offer.Some?
    && peer.readBuffer == Some(me.log.offer.value.mem)
    && (peer.shutDown || peer.readNotifier == Some(me.log.offer.value.event))
  }

  /** The signs that `me` may put, or has put, messages into shared memory. */
  predicate Live(me: Side, peer: Side, k: Kernel) {
    || me.sharedMemWriter || me.writers.Keys != {}
    || Accept in peer.wire || Accept in RingOf(peer, k)
    || RingOf(me, k) != []
    || (me.log.offer.Some? && me.log.offer.value.event in k.signalled)
  }

  predicate PhaseInv(s: Side, k: Kernel) {
    && 0 < s.cfg.pages && (s.phase == Idle <==> !s.offered)
    && (s.phase.Idle? || s.phase.Claimed? ==> s.log.offer.None?)
    && (s.phase.Created? ==> s.log.offer.Some?)
    && (!s.cfg.linux ==> s.phase.Idle?)
    && s.log.offersSent == (if s.phase.Finished? && s.log.offer.Some? then 1 else 0)
    && (s.log.offer.Some? ==>
        s.log.offer.value.mem in k.memories && s.log.offer.value.mem < s.log.offer.value.event < k.nextId)
    && (s.writeBuffer.Some? ==> s.log.offer.Some? && s.writeBuffer.value == s.log.offer.value.mem)
    && (s.writeNotifier.Some? ==> s.log.offer.Some? && s.writeNotifier.value == s.log.offer.value.event)
    && (s.shutDown ==> s.writeNotifier.None? && s.rejectWrites)
  }

  /** `me`'s offer, on the wire or taken off it by `peer`. */
  predicate OfferInv(me: Side, peer: Side, k: Kernel) {
    && Offers(me.wire) + peer.log.offersReceived == me.log.offersSent
    && Offers(RingOf(me, k)) == 0
    && (forall m <- me.wire | m.Offer? ::
          && me.log.offer.Some?
          && m == Offer(me.log.offer.value.mem, me.log.offer.value.event, me.cfg.pages))
    && (peer.readBuffer.Some? ==>
        peer.log.offersReceived == 1 && me.log.offer.Some? && peer.readBuffer.value == me.log.offer.value.mem)
    && (peer.readNotifier.Some? ==>
        peer.log.offersReceived == 1 && me.log.offer.Some? && peer.readNotifier.value == me.log.offer.value.event)
    && (Live(me, peer, k) ==> Installed(me, peer))
  }

  function Expected(me: Side, peer: Side, k: Kernel): nat {
    Replies(peer.wire) + Replies(RingOf(peer, k)) + me.log.repliesReceived
  }

  /** The replies to `me`'s offer. */
  predicate ReplyInv(me: Side, peer: Side, k: Kernel) {
    && (Expected(me, peer, k) > 0 ==> peer.log.offersReceived > 0)
    && (me.log.rejected ==> me.log.repliesReceived > 0 && !me.sharedMemWriter && me.writeBuffer.None?)
    && (me.sharedMemWriter ==> me.writeBuffer.Some? && (me.shutDown || me.writeNotifier.Some?))
    && (me.cfg.pages <= 128 ==> SingleReply(me, peer, k))
  }

  /** With a valid number of pages an offer is answered once. */
  predicate SingleReply(me: Side, peer: Side, k: Kernel) {
    && Expected(me, peer, k) <= peer.log.offersReceived
    && (me.sharedMemWriter || me.writers.Keys != {} ==> me.writeBuffer.Some? && me.log.repliesReceived == 1)
    && (me.log.offer.Some? && me.log.repliesReceived == 0 ==>
          me.writeBuffer.Some? && (me.shutDown || me.writeNotifier.Some?))
    && (me.writers.Keys != {} ==> me.shutDown || me.writeNotifier.Some?)
  }

  /** No branch that is closed to peers that follow the code has been entered. */
  predicate CleanInv(me: Side, peer: Side) {
    && (me.cfg.pages <= 128 ==> !me.log.unexpected)
    && (me.cfg.pages <= 128 && me.log.crashed ==> me.shutDown)
  }

  predicate Half(me: Side, peer: Side, k: Kernel) {
    PhaseInv(me, k) && OfferInv(me, peer, k) && ReplyInv(me, peer, k) && CleanInv(me, peer)
  }

  predicate Apart(x: Side, y: Side) {
    x.log.offer.Some? && y.log.offer.Some? ==>
      {x.log.offer.value.mem, x.log.offer.value.event} !! {y.log.offer.value.mem, y.log.offer.value.event}
  }

  predicate ViewInv(v: View) {
    Half(v.me, v.peer, v.kernel) && Half(v.peer, v.me, v.kernel) && Apart(v.me, v.peer)
    && (forall e <- v.kernel.signalled :: e < v.kernel.nextId)
  }

  predicate Inv(s: System) {
    ViewInv(Look(s, true))
  }

  /** The fields that replying, or taking a reply in, does not change. */
  predicate Steady(s: Side, now: Side) {
    && now.cfg.linux == s.cfg.linux && now.cfg.pages == s.cfg.pages && now.shutDown == s.shutDown
    && now.log.offer == s.log.offer && now.log.offersReceived == s.log.offersReceived
    && (s.log.rejected ==> now.log.rejected)
    && now.readBuffer == s.readBuffer && now.readNotifier == s.readNotifier
  }

  // ---- one change at a time ----

  lemma ClaimKeepsInv(v: View)
    requires ViewInv(v)
    ensures ViewInv(v.(me := ClaimOffer(v.me)))
  {
  }

  lemma CreateKeepsInv(v: View, made: bool)
    requires ViewInv(v) && v.me.phase.Claimed?
    ensures ViewInv(CreateOffer(v, made))
  {
    var w := CreateOffer(v, made);
    assert RingOf(w.peer, w.kernel) == RingOf(v.peer, v.kernel);
    assert RingOf(w.me, w.kernel) == RingOf(v.me, v.kernel) == [];
  }

  lemma SendKeepsInv(v: View)
    requires ViewInv(v) && v.me.phase.Created?
    ensures ViewInv(v.(me := SendOffer(v.me)))
  {
    var o := v.me.log.offer.value;
    CountAppend(v.me.wire, Offer(o.mem, o.event, v.me.cfg.pages));
  }

  /** The room for one more reply to the peer's offer. */
  predicate MayReply(v: View, m: Message) {
    && (IsReply(m) ==>
        v.me.log.offersReceived > 0
        && (v.peer.cfg.pages <= 128 ==> Expected(v.peer, v.me, v.kernel) < v.me.log.offersReceived))
    && (m.Accept? ==> Installed(v.peer, v.me))
    && !m.Offer?
  }

  lemma SocketKeepsInv(v: View, m: Message)
    requires ViewInv(v) && MayReply(v, m)
    ensures ViewInv(v.(me := v.me.(wire := v.me.wire + [m])))
  {
    CountAppend(v.me.wire, m);
  }

  lemma RingKeepsInv(v: View, m: Message)
    requires ViewInv(v) && MayReply(v, m) && v.me.writeBuffer.Some? && Installed(v.me, v.peer)
    ensures ViewInv(v.(kernel := Append(v.kernel, v.me.writeBuffer.value, m)))
  {
    CountAppend(RingOf(v.me, v.kernel), m);
    var k := Append(v.kernel, v.me.writeBuffer.value, m);
    assert RingOf(v.me, k) == RingOf(v.me, v.kernel) + [m];
    assert RingOf(v.peer, k) == RingOf(v.peer, v.kernel);
  }

  lemma SignalKeepsInv(v: View)
    requires ViewInv(v) && v.me.writeNotifier.Some? && Installed(v.me, v.peer)
    ensures ViewInv(v.(kernel := v.kernel.(signalled := v.kernel.signalled + {v.me.writeNotifier.value})))
  {
    var k := v.kernel.(signalled := v.kernel.signalled + {v.me.writeNotifier.value});
    assert RingOf(v.me, k) == RingOf(v.me, v.kernel);
    assert RingOf(v.peer, k) == RingOf(v.peer, v.kernel);
  }

  lemma WritersKeepInv(v: View, writers: map<nat, Writing>)
    requires ViewInv(v) && (v.me.writers.Keys == {} && writers.Keys != {} ==> v.me.sharedMemWriter)
    ensures ViewInv(v.(me := v.me.(writers := writers)))
  {
  }

  lemma CrashKeepsInv(v: View)
    requires ViewInv(v) && (v.me.cfg.pages <= 128 ==> v.me.shutDown)
    ensures ViewInv(v.(me := v.me.(log := v.me.log.(crashed := true))))
  {
  }

  lemma ReplyKeepsInv(v: View, m: Message, fits: bool)
    requires ViewInv(v) && MayReply(v, m) && !v.me.shutDown
    ensures ViewInv(Reply(v, m, fits))
  {
    hide OfferInv, ReplyInv, CleanInv;
    SharedWriterIsReady(v);
    if UsesSocket(v.me, false) || !fits {
      SocketKeepsInv(v, m);
    } else {
      RingKeepsInv(v, m);
      SignalKeepsInv(v.(kernel := Append(v.kernel, v.me.writeBuffer.value, m)));
    }
  }

  lemma SharedWriterIsReady(v: View)
    requires ViewInv(v)
    ensures v.me.sharedMemWriter ==>
      Installed(v.me, v.peer) && v.me.writeBuffer.Some? && (v.me.shutDown || v.me.writeNotifier.Some?)
  {
  }

  lemma WritingThreadIsReady(v: View)
    requires ViewInv(v) && v.me.writers.Keys != {}
    ensures Installed(v.me, v.peer)
    ensures v.me.cfg.pages <= 128 ==> v.me.writeBuffer.Some? && (v.me.shutDown || v.me.writeNotifier.Some?)
    ensures v.me.writeBuffer.Some? ==> v.me.writeBuffer.value in v.kernel.memories
  {
  }

  lemma StartWriteKeepsInv(v: View, t: nat, id: nat, hasHandles: bool)
    requires ViewInv(v) && Enabled(v, StepStartWrite(t, id, hasHandles))
    ensures ViewInv(Act(v, StepStartWrite(t, id, hasHandles)))
  {
    hide OfferInv, ReplyInv, CleanInv, PhaseInv;
    if UsesSocket(v.me, hasHandles) {
      SocketKeepsInv(v, Data(id, hasHandles));
    } else {
      WritersKeepInv(v, v.me.writers[t := Checked(id)]);
    }
  }

  lemma FallBackKeepsInv(v: View, t: nat, m: Message)
    requires ViewInv(v) && t in v.me.writers && m.Data?
    ensures ViewInv(v.(me := v.me.(wire := v.me.wire + [m], writers := v.me.writers - {t})))
  {
    hide ViewInv;
    SocketKeepsInv(v, m);
    WritersKeepInv(v.(me := v.me.(wire := v.me.wire + [m])), v.me.writers - {t});
  }

  lemma PublishKeepsInv(v: View, t: nat, m: Message)
    requires ViewInv(v) && t in v.me.writers && m.Data?
    requires v.me.writeBuffer.Some? && v.me.writeBuffer.value in v.kernel.memories
    ensures ViewInv(v.(me := v.me.(writers := v.me.writers[t := ToNotify]),
        kernel := Append(v.kernel, v.me.writeBuffer.value, m)))
  {
    hide ViewInv, Append;
    WritingThreadIsReady(v);
    RingKeepsInv(v, m);
    WritersKeepInv(v.(kernel := Append(v.kernel, v.me.writeBuffer.value, m)), v.me.writers[t := ToNotify]);
  }

  lemma DropKeepsInv(v: View, t: nat)
    requires ViewInv(v) && t in v.me.writers && (v.me.cfg.pages <= 128 ==> v.me.shutDown)
    ensures ViewInv(v.(me := v.me.(log := v.me.log.(crashed := true), writers := v.me.writers - {t})))
  {
    hide ViewInv;
    CrashKeepsInv(v);
    WritersKeepInv(v.(me := v.me.(log := v.me.log.(crashed := true))), v.me.writers - {t});
  }

  lemma TryWriteKeepsInv(v: View, t: nat, m: Message, fits: bool)
    requires ViewInv(v) && t in v.me.writers && m.Data?
    ensures ViewInv(TryWrite(v, t, m, fits))
  {
    hide ViewInv, Append;
    WritingThreadIsReady(v);
    if v.me.writeBuffer.None? {
      DropKeepsInv(v, t);
    } else if fits {
      PublishKeepsInv(v, t, m);
    } else {
      FallBackKeepsInv(v, t, m);
    }
  }

  lemma NotifyKeepsInv(v: View, t: nat)
    requires ViewInv(v) && Enabled(v, StepNotify(t))
    ensures ViewInv(Act(v, StepNotify(t)))
  {
    hide OfferInv, ReplyInv, CleanInv, PhaseInv;
    WritingThreadIsReady(v);
    if v.me.writeNotifier.None? {
      CrashKeepsInv(v);
      WritersKeepInv(v.(me := v.me.(log := v.me.log.(crashed := true))), v.me.writers - {t});
    } else {
      SignalKeepsInv(v);
      WritersKeepInv(v.(kernel := v.kernel.(signalled := v.kernel.signalled + {v.me.writeNotifier.value})),
          v.me.writers - {t});
    }
  }

  lemma WriteErrorKeepsInv(v: View)
    requires ViewInv(v)
    ensures ViewInv(Act(v, StepWriteError))
  {
  }

  lemma ShutDownKeepsInv(v: View)
    requires ViewInv(v)
    ensures ViewInv(Act(v, StepShutDown))
  {
  }

  // ---- taking messages in ----

  /** What the invariant says of a message that `me` is about to handle, once it has been removed. */
  predicate Expects(v: View, m: Message) {
    && (IsReply(m) ==>
        v.peer.log.offersReceived > 0
        && (v.me.cfg.pages <= 128 ==> Expected(v.me, v.peer, v.kernel) < v.peer.log.offersReceived))
    && (m.Accept? ==> Installed(v.me, v.peer))
  }

  function PopWire(v: View): View
    requires v.peer.wire != []
  {
    v.(peer := v.peer.(wire := v.peer.wire[1..]))
  }

  function PopRing(v: View): View
    requires v.me.readBuffer.Some? && v.me.readBuffer.value in v.kernel.memories
        && v.kernel.memories[v.me.readBuffer.value] != []
  {
    var mem := v.me.readBuffer.value;
    v.(kernel := v.kernel.(memories := v.kernel.memories[mem := v.kernel.memories[mem][1..]]))
  }

  lemma PopWireKeepsInv(v: View)
    requires ViewInv(v) && v.peer.wire != [] && !v.peer.wire[0].Offer?
    ensures ViewInv(PopWire(v)) && Expects(PopWire(v), v.peer.wire[0])
  {
    CountMember(v.peer.wire, v.peer.wire[0]);
    var w := PopWire(v);
    assert RingOf(w.peer, w.kernel) == RingOf(v.peer, v.kernel);
  }

  lemma PopRingKeepsInv(v: View)
    requires ViewInv(v) && v.me.readBuffer.Some? && RingOf(v.peer, v.kernel) != []
    ensures v.peer.log.offer.Some? && v.me.readBuffer.value == v.peer.log.offer.value.mem
        && v.me.readBuffer.value in v.kernel.memories
    ensures !RingOf(v.peer, v.kernel)[0].Offer?
    ensures ViewInv(PopRing(v)) && Expects(PopRing(v), RingOf(v.peer, v.kernel)[0])
  {
    var ring := RingOf(v.peer, v.kernel);
    CountMember(ring, ring[0]);
    var w := PopRing(v);
    assert RingOf(w.peer, w.kernel) == ring[1..];
    assert RingOf(w.me, w.kernel) == RingOf(v.me, v.kernel);
  }

  lemma OnReplyKeepsInv(v: View, m: Message)
    requires ViewInv(v) && IsReply(m) && Expects(v, m) && !v.me.shutDown
    ensures ViewInv(v.(me := OnReply(v.me, m)))
  {
    hide ViewInv, OnReply, Expects;
    if m.Accept? { OnAcceptKeepsInv(v); } else { OnRejectKeepsInv(v); }
  }

  /** The peer's half looks at few of this side's fields. */
  lemma HalfFrame(peer: Side, me: Side, now: Side, k: Kernel)
    requires Half(peer, me, k)
    requires now.wire == me.wire && now.log.offer == me.log.offer && now.log.offersReceived == me.log.offersReceived
    requires now.readBuffer == me.readBuffer && now.readNotifier == me.readNotifier && now.shutDown == me.shutDown
    ensures Half(peer, now, k)
  {
    assert RingOf(now, k) == RingOf(me, k);
  }

  lemma OnReplyFrame(s: Side, m: Message)
    requires IsReply(m)
    ensures var r := OnReply(s, m); Steady(s, r) && r.wire == s.wire
  {
  }

  lemma OnAcceptKeepsInv(v: View)
    requires ViewInv(v) && Expects(v, Accept) && !v.me.shutDown
    ensures ViewInv(v.(me := OnReply(v.me, Accept)))
  {
    hide Half, PhaseInv, OfferInv, ReplyInv, CleanInv, OnReply;
    OnReplyFrame(v.me, Accept);
    var me := OnReply(v.me, Accept);
    if v.me.writeBuffer.Some? && v.me.writeNotifier.Some? { ExpectedAccept(v); } else { UnexpectedAccept(v); }
    HalfFrame(v.peer, v.me, me, v.kernel);
  }

  lemma ExpectedAccept(v: View)
    requires ViewInv(v) && Expects(v, Accept) && !v.me.shutDown && v.me.writeBuffer.Some? && v.me.writeNotifier.Some?
    ensures Half(OnReply(v.me, Accept), v.peer, v.kernel)
  {
    assert v.me.log.offer.Some? && v.me.cfg.linux && v.peer.log.offersReceived == 1;
  }

  lemma UnexpectedAccept(v: View)
    requires ViewInv(v) && Expects(v, Accept) && !v.me.shutDown && (v.me.writeBuffer.None? || v.me.writeNotifier.None?)
    ensures Half(OnReply(v.me, Accept), v.peer, v.kernel)
  {
    assert v.me.log.offer.Some? && v.me.cfg.linux && v.peer.log.offersReceived == 1;
  }

  lemma OnRejectKeepsInv(v: View)
    requires ViewInv(v) && Expects(v, Reject) && !v.me.shutDown
    ensures ViewInv(v.(me := OnReply(v.me, Reject)))
  {
  }

  /** The peer's offer taken off the wire and counted, with its answer still owed. */
  function TakeOffer(v: View): View
    requires v.peer.wire != []
  {
    PopWire(v).(me := v.me.(log := v.me.log.(offersReceived := v.me.log.offersReceived + 1)))
  }

  predicate Owing(v: View) {
    && ViewInv(v) && v.me.log.offersReceived == 1 && v.peer.log.offer.Some? && !v.me.shutDown
    && (v.peer.cfg.pages <= 128 ==> Expected(v.peer, v.me, v.kernel) == 0)
  }

  lemma TakeOfferKeepsInv(v: View)
    requires ViewInv(v) && v.peer.wire != [] && v.peer.wire[0].Offer? && !v.me.shutDown
    ensures Owing(TakeOffer(v)) && v.me.readBuffer.None? && v.me.readNotifier.None?
    ensures v.peer.log.offer.Some? && 0 < v.peer.cfg.pages
        && v.peer.wire[0] == Offer(v.peer.log.offer.value.mem, v.peer.log.offer.value.event, v.peer.cfg.pages)
  {
    var w := TakeOffer(v);
    assert RingOf(w.peer, w.kernel) == RingOf(v.peer, v.kernel);
    assert RingOf(w.me, w.kernel) == RingOf(v.me, v.kernel);
  }

  lemma NotifierKeepsInv(v: View)
    requires Owing(v) && v.me.readNotifier.None? && v.me.readBuffer.None?
    ensures Owing(v.(me := v.me.(readNotifier := Some(v.peer.log.offer.value.event))))
  {
  }

  lemma BufferKeepsInv(v: View)
    requires Owing(v) && v.me.readBuffer.None? && v.me.readNotifier == Some(v.peer.log.offer.value.event)
    ensures Owing(v.(me := v.me.(readBuffer := Some(v.peer.log.offer.value.mem))))
    ensures Installed(v.peer, v.me.(readBuffer := Some(v.peer.log.offer.value.mem)))
  {
  }

  lemma ReplyFrame(v: View, m: Message, fits: bool)
    ensures var w := Reply(v, m, fits);
      w.peer == v.peer && Steady(v.me, w.me) && w.me.writeBuffer == v.me.writeBuffer
  {
  }

  lemma AnswerKeepsInv(v: View, m: Message, fits: bool)
    requires Owing(v) && IsReply(m) && (m.Accept? ==> Installed(v.peer, v.me))
    ensures ViewInv(Reply(v, m, fits))
    ensures v.peer.cfg.pages > 128 ==> Owing(Reply(v, m, fits))
  {
    hide ViewInv, Reply;
    ReplyFrame(v, m, fits);
    ReplyKeepsInv(v, m, fits);
  }

  lemma InstallKeepsInv(v: View, luck: Luck)
    requires Owing(v) && v.me.readBuffer.None? && v.me.readNotifier.None?
    ensures ViewInv(Install(v, v.peer.log.offer.value.mem, v.peer.log.offer.value.event, luck))
  {
    hide ViewInv, Reply;
    var o := v.peer.log.offer.value;
    NotifierKeepsInv(v);
    var x := v.(me := v.me.(readNotifier := Some(o.event)));
    if !luck.mapped {
      AnswerKeepsInv(x, Reject, luck.secondFits);
    } else {
      BufferKeepsInv(x);
      var y := x.(me := x.me.(readBuffer := Some(o.mem)));
      AnswerKeepsInv(y, Accept, luck.secondFits);
      ClaimKeepsInv(Reply(y, Accept, luck.secondFits));
    }
  }

  lemma OnOfferKeepsInv(v: View, luck: Luck)
    requires ViewInv(v) && v.peer.wire != [] && v.peer.wire[0].Offer? && !v.me.shutDown
    ensures ViewInv(OnOffer(PopWire(v), v.peer.wire[0], luck))
  {
    hide ViewInv, Reply, Install;
    TakeOfferKeepsInv(v);
    var taken := TakeOffer(v);
    AnswerKeepsInv(taken, Reject, luck.firstFits);
    ReplyFrame(taken, Reject, luck.firstFits);
    if v.me.cfg.linux && luck.sealed {
      InstallKeepsInv(if v.peer.wire[0].pages > 128 then Reply(taken, Reject, luck.firstFits) else taken, luck);
    }
  }

  lemma ReceiveKeepsInv(v: View, luck: Luck)
    requires ViewInv(v) && Enabled(v, StepReceive(luck))
    ensures ViewInv(Act(v, StepReceive(luck)))
  {
    hide ViewInv, OnOffer, OnReply;
    var m := v.peer.wire[0];
    if m.Offer? {
      OnOfferKeepsInv(v, luck);
    } else {
      PopWireKeepsInv(v);
      if IsReply(m) { OnReplyKeepsInv(PopWire(v), m); }
    }
  }

  lemma QuietKeepsInv(v: View, event: nat)
    requires ViewInv(v)
    ensures ViewInv(v.(kernel := v.kernel.(signalled := v.kernel.signalled - {event})))
  {
    var k := v.kernel.(signalled := v.kernel.signalled - {event});
    assert RingOf(v.me, k) == RingOf(v.me, v.kernel);
    assert RingOf(v.peer, k) == RingOf(v.peer, v.kernel);
  }

  /** A signalled reader has its buffer, which is the memory the peer created. */
  lemma SignalledReaderHasBuffer(v: View)
    requires ViewInv(v) && v.me.readNotifier.Some? && v.me.readNotifier.value in v.kernel.signalled
    ensures v.peer.log.offer.Some? && v.me.readBuffer == Some(v.peer.log.offer.value.mem)
    ensures v.me.readBuffer.value in v.kernel.memories
    ensures RingOf(v.peer, v.kernel) == v.kernel.memories[v.me.readBuffer.value]
  {
  }

  lemma ReadRingKeepsInv(v: View, luck: Luck)
    requires ViewInv(v) && Enabled(v, StepReadRing(luck))
    ensures ViewInv(Act(v, StepReadRing(luck)))
  {
    hide ViewInv, OnOffer, OnReply;
    SignalledReaderHasBuffer(v);
    var ring := RingOf(v.peer, v.kernel);
    if ring == [] {
      QuietKeepsInv(v, v.me.readNotifier.value);
    } else {
      PopRingKeepsInv(v);
      if IsReply(ring[0]) { OnReplyKeepsInv(PopRing(v), ring[0]); }
    }
  }

  lemma ActKeepsInv(v: View, step: Step)
    requires ViewInv(v) && Enabled(v, step)
    ensures ViewInv(Act(v, step))
  {
    hide ViewInv;
    match step
    case StepClaim => ClaimKeepsInv(v);
    case StepCreate(made) => CreateKeepsInv(v, made);
    case StepSend => SendKeepsInv(v);
    case StepStartWrite(t, id, h) => StartWriteKeepsInv(v, t, id, h);
    case StepTryWrite(t, fits) => TryWriteKeepsInv(v, t, Data(v.me.writers[t].id, false), fits);
    case StepNotify(t) => NotifyKeepsInv(v, t);
    case StepReceive(luck) => ReceiveKeepsInv(v, luck);
    case StepReadRing(luck) => ReadRingKeepsInv(v, luck);
    case StepWriteError => WriteErrorKeepsInv(v);
    case StepShutDown => ShutDownKeepsInv(v);
  }

  lemma InvSymmetric(s: System)
    ensures Inv(s) <==> ViewInv(Look(s, false))
  {
  }

  lemma MoveKeepsInv(s: System, m: Move)
    requires Inv(s) && CanMove(s, m)
    ensures Inv(Next(s, m))
  {
    hide ViewInv, Act;
    InvSymmetric(s);
    InvSymmetric(Next(s, m));
    ActKeepsInv(Look(s, m.byA), m.step);
  }
}
