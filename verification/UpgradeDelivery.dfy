/**
 Where the messages that a channel is given to write are, at any moment of a run: on the socket, in the
 shared-memory ring, in the hands of a writing thread, taken by the peer, or lost.
 */
module UpgradeDelivery {
  import opened Basics
  import opened Upgrade
  import opened UpgradeProof
  import opened UpgradeTheorems

  function Count(ms: seq<Message>, m: Message): nat {
    if ms == [] then 0 else (if ms[0] == m then 1 else 0) + Count(ms[1..], m)
  }

  lemma {:induction false} CountOfAppend(ms: seq<Message>, x: Message, m: Message)
    ensures Count(ms + [x], m) == Count(ms, m) + (if x == m then 1 else 0)
  {
    if ms == [] {
      assert ms + [x] == [x];
    } else {
      assert (ms + [x])[1..] == ms[1..] + [x];
      CountOfAppend(ms[1..], x, m);
    }
  }

  /** Threads that have chosen shared memory for `m` but not yet tried. */
  function Holders(writers: map<nat, Writing>, m: Message): set<nat> {
    set t <- writers | IsHeld(writers[t], m)
  }

  /** How often `m` is on its way from a side. */
  function Underway(s: Side, k: Kernel, m: Message): nat {
    Count(s.wire, m) + Count(RingOf(s, k), m) + |Holders(s.writers, m)|
  }

  // ---- what a step does to the count ----

  /** How often the step writes `m`, takes `m` from the peer, and loses `m`. */
  function WritesIt(step: Step, m: Message): nat {
    if step.StepStartWrite? && m == Data(step.id, step.hasHandles) then 1 else 0
  }

  function TakesIt(v: View, step: Step, m: Message): nat {
    match step
    case StepReceive(_) => if v.peer.wire != [] && v.peer.wire[0] == m then 1 else 0
    case StepReadRing(_) => if RingOf(v.peer, v.kernel) != [] && RingOf(v.peer, v.kernel)[0] == m then 1 else 0
    case _ => 0
  }

  function LosesIt(v: View, step: Step, m: Message): nat
    requires Enabled(v, step)
  {
    if step.StepTryWrite? && v.me.writeBuffer.None? && m == Data(v.me.writers[step.t].id, false) then 1 else 0
  }

  predicate Balance(v: View, step: Step, m: Message)
    requires Enabled(v, step)
  {
    var w := Act(v, step);
    && Underway(w.me, w.kernel, m) + LosesIt(v, step, m) == Underway(v.me, v.kernel, m) + WritesIt(step, m)
    && Underway(w.peer, w.kernel, m) + TakesIt(v, step, m) == Underway(v.peer, v.kernel, m)
  }

  /** What the invariant says of the memories. */
  predicate Tied(v: View) {
    && (v.me.writeBuffer.Some? ==> v.me.log.offer.Some? && v.me.writeBuffer.value == v.me.log.offer.value.mem)
    && Apart(v.me, v.peer)
  }

  /** As many copies of `m` are on their way in `w` as in `v`, from each side. */
  predicate SameUnderway(v: View, w: View, m: Message) {
    Underway(w.me, w.kernel, m) == Underway(v.me, v.kernel, m)
    && Underway(w.peer, w.kernel, m) == Underway(v.peer, v.kernel, m)
  }

  lemma AppendToRing(v: View, x: Message, m: Message)
    requires Tied(v) && v.me.writeBuffer.Some? && v.me.writeBuffer.value in v.kernel.memories
    ensures var k := Append(v.kernel, v.me.writeBuffer.value, x);
      && Count(RingOf(v.me, k), m) == Count(RingOf(v.me, v.kernel), m) + (if x == m then 1 else 0)
      && RingOf(v.peer, k) == RingOf(v.peer, v.kernel)
  {
    CountOfAppend(RingOf(v.me, v.kernel), x, m);
  }

  lemma ReplyUnderway(v: View, x: Message, fits: bool, m: Message)
    requires Tied(v) && m.Data? && !x.Data?
    ensures SameUnderway(v, Reply(v, x, fits), m) && Tied(Reply(v, x, fits))
  {
    hide Append, Count, Holders;
    CountOfAppend(v.me.wire, x, m);
    if v.me.writeBuffer.Some? && v.me.writeBuffer.value in v.kernel.memories { AppendToRing(v, x, m); }
  }

  lemma InstallUnderway(v: View, mem: nat, event: nat, luck: Luck, m: Message)
    requires Tied(v) && m.Data?
    ensures SameUnderway(v, Install(v, mem, event, luck), m)
  {
    hide Reply, Count, Holders;
    var x := v.(me := v.me.(readNotifier := Some(event)));
    ReplyUnderway(x, Reject, luck.secondFits, m);
    ReplyUnderway(x.(me := x.me.(readBuffer := Some(mem))), Accept, luck.secondFits, m);
  }

  /** What a count looks at. */
  predicate SameSources(v: View, w: View) {
    && w.kernel == v.kernel && w.me.wire == v.me.wire && w.peer.wire == v.peer.wire
    && w.me.writers == v.me.writers && w.peer.writers == v.peer.writers
    && w.me.log.offer == v.me.log.offer && w.peer.log.offer == v.peer.log.offer
  }

  lemma SourcesDecide(v: View, w: View, m: Message)
    requires SameSources(v, w)
    ensures SameUnderway(v, w, m)
  {
  }

  lemma OnOfferUnderway(v: View, x: Message, luck: Luck, m: Message)
    requires Tied(v) && m.Data? && x.Offer?
    ensures SameUnderway(v, OnOffer(v, x, luck), m)
  {
    hide Reply, Install, Underway, OnOffer;
    OnOfferCases(v, x, luck);
    var taken := Counted(v);
    SourcesDecide(v, taken, m);
    SourcesDecide(v, Astray(taken), m);
    ReplyUnderway(taken, Reject, luck.firstFits, m);
    InstallUnderway(taken, x.mem, x.event, luck, m);
    InstallUnderway(Reply(taken, Reject, luck.firstFits), x.mem, x.event, luck, m);
  }

  lemma OnMessageUnderway(v: View, x: Message, luck: Luck, m: Message)
    requires Tied(v) && m.Data?
    ensures SameUnderway(v, OnMessage(v, x, luck), m)
  {
    hide OnOffer, Underway;
    match x
    case Offer(_, _, _) => OnOfferUnderway(v, x, luck, m);
    case Data(_, _) =>
    case _ => SourcesDecide(v, v.(me := OnReply(v.me, x)), m);
  }

  lemma CreateBalance(v: View, made: bool, m: Message)
    requires ViewInv(v) && v.me.phase.Claimed? && m.Data?
    ensures SameUnderway(v, CreateOffer(v, made), m)
  {
    var w := CreateOffer(v, made);
    assert RingOf(w.peer, w.kernel) == RingOf(v.peer, v.kernel);
    assert RingOf(w.me, w.kernel) == RingOf(v.me, v.kernel) == [];
  }

  predicate IsHeld(w: Writing, m: Message) { m.Data? && !m.hasHandles && w == Checked(m.id) }

  lemma HolderLeaves(writers: map<nat, Writing>, t: nat, m: Message)
    ensures |Holders(writers, m)| ==
      |Holders(writers - {t}, m)| + (if t in writers && IsHeld(writers[t], m) then 1 else 0)
  {
    assert Holders(writers - {t}, m) == Holders(writers, m) - {t};
  }

  lemma HolderChanges(writers: map<nat, Writing>, t: nat, w: Writing, m: Message)
    ensures |Holders(writers[t := w], m)| == |Holders(writers - {t}, m)| + (if IsHeld(w, m) then 1 else 0)
  {
    HolderLeaves(writers[t := w], t, m);
    assert writers[t := w] - {t} == writers - {t};
  }

  lemma StartWriteBalance(v: View, t: nat, id: nat, hasHandles: bool, m: Message)
    requires Enabled(v, StepStartWrite(t, id, hasHandles)) && m.Data?
    ensures Balance(v, StepStartWrite(t, id, hasHandles), m)
  {
    hide Count, Holders;
    CountOfAppend(v.me.wire, Data(id, hasHandles), m);
    HolderChanges(v.me.writers, t, Checked(id), m);
    HolderLeaves(v.me.writers, t, m);
  }

  lemma TryWriteBalance(v: View, t: nat, fits: bool, m: Message)
    requires ViewInv(v) && Enabled(v, StepTryWrite(t, fits)) && m.Data?
    ensures Balance(v, StepTryWrite(t, fits), m)
  {
    WritingThreadIsReady(v);
    TiedByInv(v);
    hide ViewInv, Count, Holders, Append;
    var x := Data(v.me.writers[t].id, false);
    CountOfAppend(v.me.wire, x, m);
    HolderChanges(v.me.writers, t, ToNotify, m);
    HolderLeaves(v.me.writers, t, m);
    if v.me.writeBuffer.Some? { AppendToRing(v, x, m); }
  }

  lemma TiedByInv(v: View)
    requires ViewInv(v)
    ensures Tied(v)
  {
  }

  lemma NotifyBalance(v: View, t: nat, m: Message)
    requires Enabled(v, StepNotify(t)) && m.Data?
    ensures SameUnderway(v, Act(v, StepNotify(t)), m)
  {
    hide Count, Holders;
    HolderChanges(v.me.writers, t, ToNotify, m);
    HolderLeaves(v.me.writers, t, m);
  }

  lemma ReceiveBalance(v: View, luck: Luck, m: Message)
    requires ViewInv(v) && Enabled(v, StepReceive(luck)) && m.Data?
    ensures Balance(v, StepReceive(luck), m)
  {
    TiedByInv(v);
    OnMessageUnderway(PopWire(v), v.peer.wire[0], luck, m);
    hide ViewInv, OnMessage;
    assert RingOf(v.peer.(wire := v.peer.wire[1..]), v.kernel) == RingOf(v.peer, v.kernel);
  }

  lemma ReadRingBalance(v: View, luck: Luck, m: Message)
    requires ViewInv(v) && Enabled(v, StepReadRing(luck)) && m.Data?
    ensures Balance(v, StepReadRing(luck), m)
  {
    TiedByInv(v);
    SignalledReaderHasBuffer(v);
    hide ViewInv, OnMessage;
    var ring := RingOf(v.peer, v.kernel);
    if ring != [] {
      var w := PopRing(v);
      assert RingOf(w.peer, w.kernel) == ring[1..];
      assert RingOf(w.me, w.kernel) == RingOf(v.me, v.kernel);
      OnMessageUnderway(w, ring[0], luck, m);
    }
  }

  lemma StepBalance(v: View, step: Step, m: Message)
    requires ViewInv(v) && Enabled(v, step) && m.Data?
    ensures Balance(v, step, m)
  {
    hide ViewInv, Count, Holders, CreateOffer, Notify, OnMessage, ReadRing, TryWrite, StartWrite;
    match step
    case StepCreate(made) => CreateBalance(v, made, m);
    case StepSend => SendBalance(v, m);
    case StepStartWrite(t, id, hasHandles) => StartWriteBalance(v, t, id, hasHandles, m);
    case StepTryWrite(t, fits) => TryWriteBalance(v, t, fits, m);
    case StepNotify(t) => NotifyBalance(v, t, m);
    case StepReceive(luck) => ReceiveBalance(v, luck, m);
    case StepReadRing(luck) => ReadRingBalance(v, luck, m);
    case _ =>
  }

  lemma SendBalance(v: View, m: Message)
    requires m.Data?
    ensures SameUnderway(v, v.(me := SendOffer(v.me)), m)
  {
    hide Count, Holders;
    if v.me.log.offer.Some? {
      var o := v.me.log.offer.value;
      CountOfAppend(v.me.wire, Offer(o.mem, o.event, v.me.cfg.pages), m);
    }
  }

  // ---- whole runs ----

  /** How often a side wrote `m`, had it taken by its peer, and lost it, in the first `i` moves. */
  function Written(moves: seq<Move>, i: nat, byA: bool, m: Message): nat
    requires i <= |moves|
  {
    if i == 0 then 0
    else Written(moves, i - 1, byA, m) + if moves[i - 1].byA == byA then WritesIt(moves[i - 1].step, m) else 0
  }

  function Taken(states: seq<System>, moves: seq<Move>, i: nat, byA: bool, m: Message): nat
    requires Run(states, moves) && i <= |moves|
  {
    if i == 0 then 0
    else
      var (before, move) := (states[i - 1], moves[i - 1]);
      Taken(states, moves, i - 1, byA, m) + if move.byA != byA then TakesIt(Look(before, move.byA), move.step, m) else 0
  }

  function Lost(states: seq<System>, moves: seq<Move>, i: nat, byA: bool, m: Message): nat
    requires Run(states, moves) && i <= |moves|
  {
    if i == 0 then 0
    else
      var (before, move) := (states[i - 1], moves[i - 1]);
      assert CanMove(before, move);
      Lost(states, moves, i - 1, byA, m) + if move.byA == byA then LosesIt(Look(before, byA), move.step, m) else 0
  }

  /**
   Nothing is written twice or dropped between the two paths: in every run, each message is as often on the socket,
   in the ring, with a thread, with the peer, or lost, as it was written.
   */
  lemma {:induction false} MessagesConserved(states: seq<System>, moves: seq<Move>, i: nat, byA: bool, m: Message)
    requires Run(states, moves) && i < |states| && m.Data?
    ensures var v := Look(states[i], byA);
      Written(moves, i, byA, m) ==
        Underway(v.me, v.kernel, m) + Taken(states, moves, i, byA, m) + Lost(states, moves, i, byA, m)
  {
    if i > 0 {
      hide Next, CanMove, ViewInv, Act;
      MessagesConserved(states, moves, i - 1, byA, m);
      RunKeepsInv(states, moves, i - 1);
      assert CanMove(states[i - 1], moves[i - 1]);
      MoveBalance(states[i - 1], moves[i - 1], byA, m);
    }
  }

  lemma MoveBalance(s: System, move: Move, byA: bool, m: Message)
    requires ViewInv(Look(s, true)) && ViewInv(Look(s, false)) && CanMove(s, move) && m.Data?
    ensures var (v, w) := (Look(s, byA), Look(Next(s, move), byA));
      var mover := Look(s, move.byA);
      if move.byA == byA then
        Underway(w.me, w.kernel, m) + LosesIt(v, move.step, m)
          == Underway(v.me, v.kernel, m) + WritesIt(move.step, m)
      else Underway(w.me, w.kernel, m) + TakesIt(mover, move.step, m) == Underway(v.me, v.kernel, m)
  {
    hide ViewInv, Act, Underway;
    StepBalance(Look(s, move.byA), move.step, m);
  }

  /** With a valid number of pages nothing is ever lost. */
  lemma {:induction false} NothingLost(states: seq<System>, moves: seq<Move>, i: nat, byA: bool, m: Message)
    requires Run(states, moves) && i < |states| && m.Data? && Look(states[0], byA).me.cfg.pages <= 128
    ensures Lost(states, moves, i, byA, m) == 0
  {
    if i > 0 {
      hide Next, CanMove, ViewInv, Act;
      NothingLost(states, moves, i - 1, byA, m);
      RunKeepsInv(states, moves, i - 1);
      CrashedIff(states, moves, i - 1, byA);
      assert CanMove(states[i - 1], moves[i - 1]);
      if moves[i - 1].byA == byA { StepLosesNothing(Look(states[i - 1], byA), moves[i - 1].step, m); }
    }
  }

  lemma StepLosesNothing(v: View, step: Step, m: Message)
    requires ViewInv(v) && Enabled(v, step) && v.me.cfg.pages <= 128
    ensures LosesIt(v, step, m) == 0
  {
    hide ViewInv;
    if step.StepTryWrite? { WritingThreadIsReady(v); }
  }

  // ---- wake-ups ----

  /** What is in a side's ring will be looked at: the event is set, or a thread is about to set it or crashed there. */
  predicate Awake(s: Side, k: Kernel) {
    RingOf(s, k) != [] ==>
      || s.log.offer.value.event in k.signalled || s.log.crashed
      || SomeoneNotifies(s.writers)
  }

  predicate BothAwake(v: View) { Awake(v.me, v.kernel) && Awake(v.peer, v.kernel) }

  /** What the invariant says of the events. */
  predicate EventsTied(v: View) {
    && Tied(v)
    && (v.me.writeNotifier.Some? ==> v.me.log.offer.Some? && v.me.writeNotifier.value == v.me.log.offer.value.event)
  }

  lemma ReplyStaysAwake(v: View, x: Message, fits: bool)
    requires EventsTied(v) && BothAwake(v)
    ensures BothAwake(Reply(v, x, fits)) && EventsTied(Reply(v, x, fits))
  {
  }

  lemma AwakeFrame(s: Side, now: Side, k: Kernel)
    requires Awake(s, k) && now.log == s.log && now.writers == s.writers
    ensures Awake(now, k)
  {
  }

  lemma InstallStaysAwake(v: View, mem: nat, event: nat, luck: Luck)
    requires EventsTied(v) && BothAwake(v)
    ensures BothAwake(Install(v, mem, event, luck))
  {
    hide Reply, RingOf;
    var x := v.(me := v.me.(readNotifier := Some(event)));
    AwakeFrame(v.me, x.me, v.kernel);
    if !luck.mapped {
      ReplyStaysAwake(x, Reject, luck.secondFits);
    } else {
      var y := x.(me := x.me.(readBuffer := Some(mem)));
      AwakeFrame(v.me, y.me, v.kernel);
      ReplyStaysAwake(y, Accept, luck.secondFits);
      var z := Reply(y, Accept, luck.secondFits);
      AwakeFrame(z.me, ClaimOffer(z.me), z.kernel);
    }
  }

  lemma OnOfferStaysAwake(v: View, x: Message, luck: Luck)
    requires EventsTied(v) && BothAwake(v) && x.Offer?
    ensures BothAwake(OnOffer(v, x, luck))
  {
    hide Reply, Install, OnOffer;
    OnOfferCases(v, x, luck);
    ReplyStaysAwake(Counted(v), Reject, luck.firstFits);
    InstallStaysAwake(Counted(v), x.mem, x.event, luck);
    InstallStaysAwake(Reply(Counted(v), Reject, luck.firstFits), x.mem, x.event, luck);
  }

  lemma OnMessageStaysAwake(v: View, x: Message, luck: Luck)
    requires EventsTied(v) && BothAwake(v)
    ensures BothAwake(OnMessage(v, x, luck))
  {
    hide OnOffer, Awake;
    match x
    case Offer(_, _, _) => OnOfferStaysAwake(v, x, luck);
    case Data(_, _) =>
    case _ => OnReplyStaysAwake(v.me, x, v.kernel);
  }

  lemma OnReplyStaysAwake(s: Side, x: Message, k: Kernel)
    requires Awake(s, k) && IsReply(x)
    ensures Awake(OnReply(s, x), k)
  {
    hide SomeoneNotifies;
  }

  lemma CreateStaysAwake(v: View, made: bool)
    requires ViewInv(v) && v.me.phase.Claimed? && BothAwake(v)
    ensures BothAwake(CreateOffer(v, made))
  {
    var w := CreateOffer(v, made);
    assert RingOf(w.peer, w.kernel) == RingOf(v.peer, v.kernel);
    assert RingOf(w.me, w.kernel) == [];
  }

  predicate SomeoneNotifies(writers: map<nat, Writing>) { exists t :: t in writers && writers[t].ToNotify? }

  lemma NotifierStays(writers: map<nat, Writing>, t: nat, w: Writing)
    requires t in writers ==> !writers[t].ToNotify?
    ensures SomeoneNotifies(writers) ==> SomeoneNotifies(writers - {t}) && SomeoneNotifies(writers[t := w])
    ensures w.ToNotify? ==> SomeoneNotifies(writers[t := w])
  {
    if w.ToNotify? { assert t in writers[t := w] && writers[t := w][t].ToNotify?; }
    if SomeoneNotifies(writers) {
      var u :| u in writers && writers[u].ToNotify?;
      assert u in writers - {t} && (writers - {t})[u].ToNotify?;
      assert u in writers[t := w] && writers[t := w][u].ToNotify?;
    }
  }

  lemma StartStaysAwake(v: View, t: nat, id: nat, hasHandles: bool)
    requires BothAwake(v) && t !in v.me.writers
    ensures BothAwake(v.(me := StartWrite(v.me, t, id, hasHandles)))
  {
    NotifierStays(v.me.writers, t, Checked(id));
    hide SomeoneNotifies;
  }

  lemma TryStaysAwake(v: View, t: nat, fits: bool)
    requires EventsTied(v) && Enabled(v, StepTryWrite(t, fits)) && BothAwake(v)
    ensures BothAwake(Act(v, StepTryWrite(t, fits)))
  {
    NotifierStays(v.me.writers, t, ToNotify);
    hide SomeoneNotifies;
  }

  lemma NotifyStaysAwake(v: View, t: nat)
    requires EventsTied(v) && BothAwake(v)
    ensures BothAwake(Notify(v, t))
  {
    hide SomeoneNotifies;
  }

  lemma ReadRingStaysAwake(v: View, luck: Luck)
    requires ViewInv(v) && Enabled(v, StepReadRing(luck)) && BothAwake(v)
    ensures BothAwake(Act(v, StepReadRing(luck)))
  {
    EventsTiedByInv(v);
    SignalledReaderHasBuffer(v);
    ReadsThePeersEvent(v);
    hide ViewInv, OnMessage;
    var ring := RingOf(v.peer, v.kernel);
    if ring != [] {
      var w := PopRing(v);
      assert RingOf(w.peer, w.kernel) == ring[1..] && RingOf(w.me, w.kernel) == RingOf(v.me, v.kernel);
      OnMessageStaysAwake(w, ring[0], luck);
    }
  }

  lemma EventsTiedByInv(v: View)
    requires ViewInv(v)
    ensures EventsTied(v)
  {
  }

  lemma ReadsThePeersEvent(v: View)
    requires ViewInv(v) && v.me.readNotifier.Some?
    ensures v.peer.log.offer.Some? && v.me.readNotifier.value == v.peer.log.offer.value.event
    ensures v.me.log.offer.Some? ==> v.me.readNotifier.value != v.me.log.offer.value.event
  {
  }

  lemma StepStaysAwake(v: View, step: Step)
    requires ViewInv(v) && Enabled(v, step) && BothAwake(v)
    ensures BothAwake(Act(v, step))
  {
    EventsTiedByInv(v);
    hide ViewInv, CreateOffer, OnMessage, ReadRing, Notify, TryWrite, StartWrite;
    match step
    case StepCreate(made) => CreateStaysAwake(v, made);
    case StepStartWrite(t, id, hasHandles) => StartStaysAwake(v, t, id, hasHandles);
    case StepTryWrite(t, fits) => TryStaysAwake(v, t, fits);
    case StepNotify(t) => NotifyStaysAwake(v, t);
    case StepReceive(luck) => OnMessageStaysAwake(PopWire(v), v.peer.wire[0], luck);
    case StepReadRing(luck) => ReadRingStaysAwake(v, luck);
    case _ =>
  }

  /** In every run, a side whose peer has put messages into its ring is called, or will be. */
  lemma {:induction false} RingsStayAwake(states: seq<System>, moves: seq<Move>, i: nat)
    requires Run(states, moves) && i < |states|
    ensures Awake(states[i].a, states[i].kernel) && Awake(states[i].b, states[i].kernel)
  {
    if i > 0 {
      hide Next, CanMove, ViewInv, Act, Awake;
      RingsStayAwake(states, moves, i - 1);
      RunKeepsInv(states, moves, i - 1);
      assert CanMove(states[i - 1], moves[i - 1]);
      MoveStaysAwake(states[i - 1], moves[i - 1]);
    }
  }

  lemma MoveStaysAwake(s: System, move: Move)
    requires ViewInv(Look(s, true)) && ViewInv(Look(s, false)) && CanMove(s, move)
    requires Awake(s.a, s.kernel) && Awake(s.b, s.kernel)
    ensures Awake(Next(s, move).a, Next(s, move).kernel) && Awake(Next(s, move).b, Next(s, move).kernel)
  {
    hide ViewInv, Act, Awake;
    StepStaysAwake(Look(s, move.byA), move.step);
  }
}
