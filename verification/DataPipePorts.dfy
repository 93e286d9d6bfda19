/** The control ports of a data pipe: counts arrive in the order in which they were sent, each exactly once. */
module DataPipePorts {
  import opened DataPipe
  import opened DataPipeProtocol
  import opened DataPipeProof
  import opened DataPipeTheorems

  /** The counts that a step puts on the port towards one end. */
  function SentBy(s: Pipe, step: Step, toConsumer: bool): seq<nat>
    requires Enabled(s, step)
  {
    if !BothOpen(s) then []
    else if toConsumer && step.SendWriteStep? then [s.unsentWrites[step.i]]
    else if !toConsumer && step.SendReadStep? then [s.unsentReads[step.i]]
    else []
  }

  /** The counts that an end takes off its port in a step: a look at it, or the one that ends a transfer. */
  function TakenBy(s: Pipe, step: Step, toConsumer: bool): seq<nat>
    requires Enabled(s, step)
  {
    if toConsumer then
      match step
      case UpdateConsumerStep(k, _) => if s.c.inTransit || ConsumerPortClosed(s) then [] else s.toConsumer[..k]
      case ConsumerTransitStep(CancelTransit(k, _)) => if ConsumerPortClosed(s) then [] else s.toConsumer[..k]
      case ConsumerTransitStep(Deserialize(k, _)) => s.toConsumer[..k]
      case _ => []
    else
      match step
      case UpdateProducerStep(k, _) => if s.p.inTransit || ProducerPortClosed(s) then [] else s.toProducer[..k]
      case ProducerTransitStep(Deserialize(k, _)) => s.toProducer[..k]
      case _ => []
  }

  function OnPort(s: Pipe, toConsumer: bool): seq<nat> { if toConsumer then s.toConsumer else s.toProducer }

  lemma StepKeepsOrder(s: Pipe, step: Step, toConsumer: bool)
    requires Core(s) && Enabled(s, step)
    ensures OnPort(s, toConsumer) + SentBy(s, step, toConsumer)
         == TakenBy(s, step, toConsumer) + OnPort(Next(s, step), toConsumer)
  {
    hide Core, Write, Read, EndWrite, EndRead, BeginWrite, BeginRead, Poke, UpdateProducer, UpdateConsumer,
         ProducerPort, ConsumerPort, TransitP, TransitC;
    match step
    case ProducerTransitStep(t) => ProducerTransitKeepsOrder(s, t);
    case ConsumerTransitStep(t) => ConsumerTransitKeepsOrder(s, t);
    case SendWriteStep(_) =>
    case SendReadStep(_) =>
    case UpdateProducerStep(_, _) =>
    case UpdateConsumerStep(_, _) =>
    case _ => OthersLeavePorts(s, step);
  }

  /** A step on the data or on the flags of an end, and not on a port. */
  predicate OffPort(step: Step) {
    && !step.SendWriteStep? && !step.SendReadStep? && !step.UpdateProducerStep? && !step.UpdateConsumerStep?
    && !step.ProducerTransitStep? && !step.ConsumerTransitStep?
  }

  lemma OthersLeavePorts(s: Pipe, step: Step)
    requires Enabled(s, step) && OffPort(step)
    ensures Next(s, step).toConsumer == s.toConsumer && Next(s, step).toProducer == s.toProducer
  {
    hide WriteData, ReadData, EndWriteData, EndReadData, BeginWriteData, BeginReadData, Loaded, UpdateP, UpdateC,
         TransitP, TransitC;
  }

  lemma ProducerTransitKeepsOrder(s: Pipe, t: Transit)
    requires Core(s) && InRange(s) && ProducerTransitEnabled(s, t)
    ensures TransitP(s, t).toConsumer == s.toConsumer
    ensures TransitP(s, t).toProducer == match t case Deserialize(k, _) => s.toProducer[k..] case _ => s.toProducer
  {
    hide StreamsInRing, CountInv, UpdateProducer, ProducerPort;
  }

  lemma ConsumerTransitKeepsOrder(s: Pipe, t: Transit)
    requires Core(s) && InRange(s) && ConsumerTransitEnabled(s, t)
    ensures TransitC(s, t).toProducer == s.toProducer
    ensures TransitC(s, t).toConsumer ==
      match t
      case CancelTransit(k, _) => if ConsumerPortClosed(s) then s.toConsumer else s.toConsumer[k..]
      case Deserialize(k, _) => s.toConsumer[k..]
      case _ => s.toConsumer
  {
    hide StreamsInRing, CountInv, UpdateConsumer, ConsumerPort;
  }

  function AllSent(states: seq<Pipe>, steps: seq<Step>, i: nat, toConsumer: bool): seq<nat>
    requires Run(states, steps) && i <= |steps|
  {
    if i == 0 then []
    else
      assert Enabled(states[i - 1], steps[i - 1]);
      AllSent(states, steps, i - 1, toConsumer) + SentBy(states[i - 1], steps[i - 1], toConsumer)
  }

  function AllTaken(states: seq<Pipe>, steps: seq<Step>, i: nat, toConsumer: bool): seq<nat>
    requires Run(states, steps) && i <= |steps|
  {
    if i == 0 then []
    else
      assert Enabled(states[i - 1], steps[i - 1]);
      AllTaken(states, steps, i - 1, toConsumer) + TakenBy(states[i - 1], steps[i - 1], toConsumer)
  }

  /**
   In every run what has been sent towards an end is what that end has taken, through any transfers, followed by
   what is still on the port.
   */
  lemma {:induction false} CountsInOrder(states: seq<Pipe>, steps: seq<Step>, i: nat, toConsumer: bool)
    requires RunFromCreation(states, steps) && i < |states|
    ensures AllSent(states, steps, i, toConsumer)
         == AllTaken(states, steps, i, toConsumer) + OnPort(states[i], toConsumer)
  {
    hide Next, Enabled, Inv, Init, SentBy, TakenBy, OnPort;
    if i == 0 {
      NothingOnPort(states[0], toConsumer);
    } else {
      CountsInOrder(states, steps, i - 1, toConsumer);
      RunKeepsInv(states, steps, i - 1);
      var (s, step) := (states[i - 1], steps[i - 1]);
      assert Enabled(s, step) && states[i] == Next(s, step);
      InvHasCore(s);
      StepKeepsOrder(s, step, toConsumer);
      Regroup(AllTaken(states, steps, i - 1, toConsumer), OnPort(s, toConsumer), SentBy(s, step, toConsumer),
              TakenBy(s, step, toConsumer), OnPort(states[i], toConsumer));
    }
  }

  lemma NothingOnPort(s: Pipe, toConsumer: bool)
    requires Init(s)
    ensures OnPort(s, toConsumer) == []
  {
  }

  lemma Regroup(done: seq<nat>, port: seq<nat>, sent: seq<nat>, taken: seq<nat>, now: seq<nat>)
    requires port + sent == taken + now
    ensures done + port + sent == done + taken + now
  {
    assert done + port + sent == done + (port + sent);
  }
}
