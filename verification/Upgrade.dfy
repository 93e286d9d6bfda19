/**
 The handshake by which a Linux channel moves its writes into shared memory, as a machine of two
 sides.  Both may offer at once, offers are created and sent on any thread, and the replies may
 themselves travel through a ring that is already in use.  The kernel holds the memories and the
 event descriptors, so that a side is tied to the other only by the numbers it was sent.
 */
module Upgrade {
  import opened Basics

  datatype Message =
    | Offer(mem: nat, event: nat, pages: nat)
    | Accept
    | Reject
    | Data(id: nat, hasHandles: bool)

  /** How far `OfferSharedMemUpgrade` has come. */
  datatype Phase = Idle | Claimed | Created | Finished

  /** A thread inside `ChannelLinux::Write` that has seen `shared_mem_writer_` set. */
  datatype Writing = Checked(id: nat) | ToNotify

  datatype Offering = Offering(mem: nat, event: nat)

  datatype Config = Config(
    linux: bool,                   // a ChannelLinux, not a bare ChannelPosix
    enabled: bool,                 // UpgradesEnabled()
    acceptHandles: bool,
    pages: nat)                    // num_pages_

  /** History, read by no step. */
  datatype Log = Log(
    offer: Option<Offering>,       // what this side created
    offersSent: nat,
    offersReceived: nat,
    repliesReceived: nat,
    rejected: bool,                // an UPGRADE_REJECT has arrived
    unexpected: bool,              // a branch for messages a peer must not send was entered
    crashed: bool)                 // a missing buffer or notifier was used

  datatype Side = Side(
    cfg: Config,
    offered: bool, phase: Phase,
    writeBuffer: Option<nat>, writeNotifier: Option<nat>,
    sharedMemWriter: bool,
    readBuffer: Option<nat>, readNotifier: Option<nat>,
    rejectWrites: bool, shutDown: bool,
    wire: seq<Message>,            // on the socket, towards the peer
    writers: map<nat, Writing>,
    log: Log)

  datatype Kernel = Kernel(memories: map<nat, seq<Message>>, signalled: set<nat>, nextId: nat)

  datatype System = System(a: Side, b: Side, kernel: Kernel)

  datatype View = View(me: Side, peer: Side, kernel: Kernel)

  function NewSide(cfg: Config): Side {
    Side(cfg, false, Idle, None, None, false, None, None, false, false, [], map[],
         Log(None, 0, 0, 0, false, false, false))
  }

  predicate Init(s: System) {
    && s == System(NewSide(s.a.cfg), NewSide(s.b.cfg), Kernel(map[], {}, 0))
    && 0 < s.a.cfg.pages && 0 < s.b.cfg.pages
  }

  // ---- the code ----

  function ClaimOffer(s: Side): Side {
    if s.offered || !s.cfg.linux then s
    else s.(offered := true, phase := if s.cfg.enabled && s.cfg.acceptHandles then Claimed else Finished)
  }

  /** `OfferSharedMemUpgradeInternal` up to its `Write`; `made` says that the kernel gave everything asked for. */
  function CreateOffer(v: View, made: bool): View {
    var s := v.me;
    var upgraded := s.writeBuffer.Some? || s.writeNotifier.Some?;
    if s.rejectWrites || upgraded || !made then
      v.(me := s.(phase := Finished, log := s.log.(unexpected := s.log.unexpected || (!s.rejectWrites && upgraded))))
    else
      var mem, event := v.kernel.nextId, v.kernel.nextId + 1;
      View(s.(phase := Created, writeBuffer := Some(mem), writeNotifier := Some(event),
              log := s.log.(offer := Some(Offering(mem, event)))),
           v.peer,
           Kernel(v.kernel.memories[mem := []], v.kernel.signalled, v.kernel.nextId + 2))
  }

  function SendOffer(s: Side): Side {
    match s.log.offer
    case None => s
    case Some(o) =>
      s.(phase := Finished, wire := s.wire + [Offer(o.mem, o.event, s.cfg.pages)],
          log := s.log.(offersSent := s.log.offersSent + 1))
  }

  predicate UsesSocket(s: Side, hasHandles: bool) {
    !s.cfg.linux || !s.sharedMemWriter || hasHandles || s.rejectWrites
  }

  /** `Write` on a thread of its own, up to the choice of path. */
  function StartWrite(s: Side, t: nat, id: nat, hasHandles: bool): Side {
    if UsesSocket(s, hasHandles) then s.(wire := s.wire + [Data(id, hasHandles)])
    else s.(writers := s.writers[t := Checked(id)])
  }

  /** The `TryWrite` of a thread that chose shared memory; `fits` is its result. */
  function TryWrite(v: View, t: nat, m: Message, fits: bool): View {
    var s := v.me;
    if s.writeBuffer.None? || s.writeBuffer.value !in v.kernel.memories then
      v.(me := s.(log := s.log.(crashed := true), writers := s.writers - {t}))
    else if !fits then v.(me := s.(wire := s.wire + [m], writers := s.writers - {t}))
    else
      v.(me := s.(writers := s.writers[t := ToNotify]), kernel := Append(v.kernel, s.writeBuffer.value, m))
  }

  function Append(k: Kernel, mem: nat, m: Message): Kernel
    requires mem in k.memories
  {
    k.(memories := k.memories[mem := k.memories[mem] + [m]])
  }

  function Notify(v: View, t: nat): View {
    var s := v.me;
    if s.writeNotifier.None? then v.(me := s.(log := s.log.(crashed := true), writers := s.writers - {t}))
    else
      v.(me := s.(writers := s.writers - {t}),
         kernel := v.kernel.(signalled := v.kernel.signalled + {s.writeNotifier.value}))
  }

  /** `Write` on the I/O thread, which alone changes the fields it looks at, so the whole call is one step. */
  function Reply(v: View, m: Message, fits: bool): View {
    var s := v.me;
    if UsesSocket(s, false) then v.(me := s.(wire := s.wire + [m]))
    else if s.writeBuffer.None? || s.writeBuffer.value !in v.kernel.memories then
      v.(me := s.(log := s.log.(crashed := true)))
    else if !fits then v.(me := s.(wire := s.wire + [m]))
    else if s.writeNotifier.None? then v.(me := s.(log := s.log.(crashed := true)))
    else
      var kernel := Append(v.kernel, s.writeBuffer.value, m);
      v.(kernel := kernel.(signalled := kernel.signalled + {s.writeNotifier.value}))
  }

  /** What the kernel decides while an offer is handled, and how the two possible replies travel. */
  datatype Luck = Luck(sealed: bool, mapped: bool, firstFits: bool, secondFits: bool)

  function OnOffer(v0: View, o: Message, luck: Luck): View
    requires o.Offer?
  {
    var v := v0.(me := v0.me.(log := v0.me.log.(offersReceived := v0.me.log.offersReceived + 1)));
    if !v.me.cfg.linux then Reply(v, Reject, luck.firstFits)
    else if v.me.readBuffer.Some? || v.me.readNotifier.Some? then v.(me := v.me.(log := v.me.log.(unexpected := true)))
    else if !luck.sealed then Reply(v, Reject, luck.firstFits)
    else
      // The branch for a bad number of pages replies and goes on.
      var w := if o.pages <= 0 || o.pages > 128 then Reply(v, Reject, luck.firstFits) else v;
      Install(w, o.mem, o.event, luck)
  }

  /** The end of the branch for offers: the notifier comes first and stays even if the mapping fails. */
  function Install(v: View, mem: nat, event: nat, luck: Luck): View {
    var x := v.(me := v.me.(readNotifier := Some(event)));
    if !luck.mapped then Reply(x, Reject, luck.secondFits)
    else
      var y := Reply(x.(me := x.me.(readBuffer := Some(mem))), Accept, luck.secondFits);
      y.(me := ClaimOffer(y.me))
  }

  function OnReply(s: Side, m: Message): Side
    requires m.Accept? || m.Reject?
  {
    var taken := m.Accept? && s.writeBuffer.Some? && s.writeNotifier.Some?;
    var log := s.log.(repliesReceived := s.log.repliesReceived + 1, rejected := s.log.rejected || m.Reject?,
                      unexpected := s.log.unexpected || !s.cfg.linux || (m.Accept? && !taken));
    if !s.cfg.linux then s.(log := log)
    else if taken then s.(sharedMemWriter := true, log := log)
    else s.(sharedMemWriter := false, writeBuffer := None, writeNotifier := None, log := log)
  }

  function OnMessage(v: View, m: Message, luck: Luck): View {
    match m
    case Offer(_, _, _) => OnOffer(v, m, luck)
    case Data(_, _) => v
    case _ => v.(me := OnReply(v.me, m))
  }

  /** `SharedMemReadReady` for one message; the ring's own module is about the loop around it. */
  function ReadRing(v: View, luck: Luck): View
    requires v.me.readNotifier.Some?
  {
    var s := v.me;
    if s.readBuffer.None? || s.readBuffer.value !in v.kernel.memories then v.(me := s.(log := s.log.(crashed := true)))
    else
      var mem := s.readBuffer.value;
      var ring := v.kernel.memories[mem];
      if ring == [] then v.(kernel := v.kernel.(signalled := v.kernel.signalled - {s.readNotifier.value}))
      else OnMessage(v.(kernel := v.kernel.(memories := v.kernel.memories[mem := ring[1..]])), ring[0], luck)
  }

  datatype Step =
    | StepClaim
    | StepCreate(made: bool)
    | StepSend
    | StepStartWrite(t: nat, id: nat, hasHandles: bool)
    | StepTryWrite(t: nat, fits: bool)
    | StepNotify(t: nat)
    | StepReceive(luck: Luck)
    | StepReadRing(luck: Luck)
    | StepWriteError
    | StepShutDown

  predicate Enabled(v: View, step: Step) {
    match step
    case StepClaim => true
    case StepCreate(_) => v.me.phase == Claimed
    case StepSend => v.me.phase == Created
    case StepStartWrite(t, _, _) => t !in v.me.writers
    case StepTryWrite(t, _) => t in v.me.writers && v.me.writers[t].Checked?
    case StepNotify(t) => t in v.me.writers && v.me.writers[t].ToNotify?
    case StepReceive(_) => v.peer.wire != [] && !v.me.shutDown
    case StepReadRing(_) => v.me.readNotifier.Some? && v.me.readNotifier.value in v.kernel.signalled && !v.me.shutDown
    case StepWriteError => true
    case StepShutDown => true
  }

  function Act(v: View, step: Step): View
    requires Enabled(v, step)
  {
    match step
    case StepClaim => v.(me := ClaimOffer(v.me))
    case StepCreate(made) => CreateOffer(v, made)
    case StepSend => v.(me := SendOffer(v.me))
    case StepStartWrite(t, id, h) => v.(me := StartWrite(v.me, t, id, h))
    case StepTryWrite(t, fits) => TryWrite(v, t, Data(v.me.writers[t].id, false), fits)
    case StepNotify(t) => Notify(v, t)
    case StepReceive(luck) => OnMessage(v.(peer := v.peer.(wire := v.peer.wire[1..])), v.peer.wire[0], luck)
    case StepReadRing(luck) => ReadRing(v, luck)
    case StepWriteError => v.(me := v.me.(rejectWrites := true))
    case StepShutDown =>
      v.(me := v.me.(rejectWrites := true, shutDown := true, readNotifier := None, writeNotifier := None))
  }

  /** A step of one side of the system. */
  datatype Move = Move(byA: bool, step: Step)

  function Look(s: System, byA: bool): View {
    if byA then View(s.a, s.b, s.kernel) else View(s.b, s.a, s.kernel)
  }

  predicate CanMove(s: System, m: Move) {
    Enabled(Look(s, m.byA), m.step)
  }

  function Next(s: System, m: Move): System
    requires CanMove(s, m)
  {
    var v := Act(Look(s, m.byA), m.step);
    if m.byA then System(v.me, v.peer, v.kernel) else System(v.peer, v.me, v.kernel)
  }
}
