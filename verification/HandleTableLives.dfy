/** The lives of the dispatchers behind a handle table: when they are open, and how a data pipe is one of them. */
module HandleTableLives {
  import opened Basics
  import opened HandleTableSpec
  import opened HandleTableRuns
  import Pipes = DataPipe

  // ---- open exactly while registered ----

  /** A dispatcher is open exactly while an entry names it, but for those in `strays`, which no entry names. */
  predicate LivesInv(t: Table, strays: set<nat>) {
    && (forall d <- t.world :: !t.world[d].closed <==> Registered(t.entries, d) || d in strays)
    && (forall d <- strays :: d in t.world && !Registered(t.entries, d))
  }

  /** The same handles for the same dispatchers, each as open as before. */
  predicate SameLives(t: Table, u: Table) {
    && u.world.Keys == t.world.Keys && u.entries.Keys == t.entries.Keys
    && (forall h <- t.entries :: u.entries[h].dispatcher == t.entries[h].dispatcher)
    && (forall d <- t.world :: u.world[d].closed == t.world[d].closed && u.world[d].kind == t.world[d].kind)
  }

  lemma SameLivesKeepInv(t: Table, u: Table, strays: set<nat>)
    requires LivesInv(t, strays) && SameLives(t, u)
    ensures LivesInv(u, strays)
  {
    forall d ensures Registered(u.entries, d) <==> Registered(t.entries, d) {
      assert forall h <- t.entries :: h in u.entries;
      assert forall h <- u.entries :: h in t.entries;
    }
  }

  lemma {:induction false} BeginSameLives(t: Table, hs: seq<nat>)
    ensures SameLives(t, Begin(t, hs).1)
    decreases |hs|
  {
    if hs != [] && Obstacle(t, hs[0]).Ok? { BeginSameLives(Mark(t, hs[0]), hs[1..]); }
  }

  lemma {:induction false} CancelSameLives(t: Table, ds: seq<InTransit>)
    ensures SameLives(t, Cancel(t, ds))
    decreases |ds|
  {
    if ds != [] { CancelSameLives(Unmark(t, ds[0]), ds[1..]); }
  }

  /** Dispatchers of the base class, which a completed transfer does not close. */
  function LeftOpen(t: Table, ds: seq<InTransit>): set<nat> {
    set x <- ds | x.dispatcher in t.world && t.world[x.dispatcher].kind.Plain? :: x.dispatcher
  }

  lemma DepartKeepsLives(t: Table, x: InTransit, strays: set<nat>)
    requires EntriesInv(t) && LivesInv(t, strays)
    requires x.handle in t.entries && t.entries[x.handle] == Entry(x.dispatcher, true)
    ensures LivesInv(Depart(t, x), strays + LeftOpen(t, [x]))
  {
    var u := Depart(t, x);
    forall d ensures Registered(u.entries, d) <==> Registered(t.entries, d) && d != x.dispatcher {
      RegisteredAfterRemoval(t, x.handle, d);
    }
    assert LeftOpen(t, [x]) == if t.world[x.dispatcher].kind.Plain? then {x.dispatcher} else {} by {
      assert [x][0] == x;
    }
  }

  lemma RegisteredAfterRemoval(t: Table, h: nat, d: nat)
    requires EntriesInv(t) && h in t.entries
    ensures Registered(t.entries - {h}, d) <==> Registered(t.entries, d) && d != t.entries[h].dispatcher
  {
    if Registered(t.entries, d) && d != t.entries[h].dispatcher {
      var g :| g in t.entries && t.entries[g].dispatcher == d;
      assert g in t.entries - {h};
    }
  }

  /** The first dispatcher of a message has gone. */
  function Departing(c: Core, m: nat): Core
    requires m in c.messages && c.messages[m] != []
  {
    var ds := c.messages[m];
    Core(Depart(c.table, ds[0]), c.messages[m := ds[1..]], c.owner - {ds[0].handle}, c.issued)
  }

  lemma DepartKeepsInv(c: Core, m: nat)
    requires Inv(c) && m in c.messages && c.messages[m] != []
    ensures Inv(Departing(c, m))
  {
    hide EntriesInv, OwnersInv, NamesInv, Depart;
    var x := c.messages[m][0];
    HeldIsBusy(c.table.entries, c.messages, c.owner, m, x);
    DepartKeepsEntries(c.table, x);
    DepartKeepsOwners(c.table, c.messages, c.owner, m);
    FewerKeepNames(c.table, x, c.issued);
  }

  lemma {:induction false} CompleteKeepsLives(c: Core, m: nat, strays: set<nat>)
    requires Inv(c) && m in c.messages && LivesInv(c.table, strays)
    ensures LivesInv(Complete(c.table, c.messages[m]), strays + LeftOpen(c.table, c.messages[m]))
    decreases |c.messages[m]|
  {
    hide Inv, LivesInv, LeftOpen, Depart;
    var ds := c.messages[m];
    if ds == [] {
      NoneLeftOpen(c.table);
      assert strays + {} == strays;
    } else {
      FirstDeparts(c, m, strays);
      DepartKeepsInv(c, m);
      LeftOpenSplits(c.table, ds);
      var (first, rest) := (LeftOpen(c.table, [ds[0]]), LeftOpen(Depart(c.table, ds[0]), ds[1..]));
      CompleteKeepsLives(Departing(c, m), m, strays + first);
      assert strays + first + rest == strays + (first + rest);
    }
  }

  lemma FirstDeparts(c: Core, m: nat, strays: set<nat>)
    requires Inv(c) && m in c.messages && c.messages[m] != [] && LivesInv(c.table, strays)
    ensures var x := c.messages[m][0]; LivesInv(Depart(c.table, x), strays + LeftOpen(c.table, [x]))
  {
    hide EntriesInv, OwnersInv, NamesInv, LivesInv;
    HeldIsBusy(c.table.entries, c.messages, c.owner, m, c.messages[m][0]);
    DepartKeepsLives(c.table, c.messages[m][0], strays);
  }

  lemma NoneLeftOpen(t: Table)
    ensures LeftOpen(t, []) == {}
  {
  }

  lemma LeftOpenSplits(t: Table, ds: seq<InTransit>)
    requires ds != []
    ensures LeftOpen(t, ds) == LeftOpen(t, [ds[0]]) + LeftOpen(Depart(t, ds[0]), ds[1..])
  {
    var u := Depart(t, ds[0]);
    assert ds == [ds[0]] + ds[1..];
    assert u.world.Keys == t.world.Keys && forall d <- t.world :: u.world[d].kind == t.world[d].kind;
  }

  lemma CloseKeepsLives(t: Table, h: nat, strays: set<nat>)
    requires EntriesInv(t) && LivesInv(t, strays)
    ensures LivesInv(Close(t, h).1, strays)
  {
    if h in t.entries && !t.entries[h].busy {
      var u := Close(t, h).1;
      forall d ensures Registered(u.entries, d) <==> Registered(t.entries, d) && d != t.entries[h].dispatcher {
        RegisteredAfterRemoval(t, h, d);
      }
    }
  }

  lemma AddKeepsLives(c: Core, d: nat, s: State, strays: set<nat>)
    requires Inv(c) && LivesInv(c.table, strays) && d !in c.table.world && NewState(s)
    ensures LivesInv(Next(c, StepAdd(d, s)).table, strays + if c.table.next == 0 then {d} else {})
  {
    var (t, u) := (c.table, Next(c, StepAdd(d, s)).table);
    assert !Registered(t.entries, d);
    forall e ensures Registered(u.entries, e) <==> Registered(t.entries, e) || (e == d && t.next != 0) {
      if Registered(t.entries, e) {
        var h :| h in t.entries && t.entries[h].dispatcher == e;
        assert h in u.entries && u.entries[h] == t.entries[h];
      }
      if t.next != 0 { assert t.next in u.entries; }
    }
  }

  lemma AddEachKeepsLives(c: Core, ds: seq<Option<nat>>, states: map<nat, State>, strays: set<nat>)
    requires Inv(c) && LivesInv(c.table, strays) && Enabled(c, StepAddFromTransit(ds, states))
    ensures LivesInv(Next(c, StepAddFromTransit(ds, states)).table, strays)
  {
    var (t, u) := (c.table, Next(c, StepAddFromTransit(ds, states)).table);
    if HasRoom(t, |ds|) {
      RegisteredAfterBatch(c, ds, states);
    } else {
      assert forall d <- states :: !Registered(t.entries, d) && d !in strays;
    }
  }

  lemma RegisteredAfterBatch(c: Core, ds: seq<Option<nat>>, states: map<nat, State>)
    requires Inv(c) && Enabled(c, StepAddFromTransit(ds, states)) && HasRoom(c.table, |ds|)
    ensures var u := Next(c, StepAddFromTransit(ds, states)).table;
      && u.world == c.table.world + states
      && forall d :: Registered(u.entries, d) <==> Registered(c.table.entries, d) || d in states
  {
    var t := WithWorld(c.table, states);
    AddEachCounts(t, ds);
    AddEachRegisters(t, ds);
    var (u, hs) := AddEach(t, ds);
    hide AddEach, EntriesInv, OwnersInv;
    forall d ensures Registered(u.entries, d) <==> Registered(t.entries, d) || d in states {
      if Registered(t.entries, d) {
        var h :| h in t.entries && t.entries[h].dispatcher == d;
        assert h !in hs && h in u.entries;
      }
      if d in states {
        var i :| 0 <= i < |ds| && ds[i] == Some(d);
        assert hs[i] in u.entries && u.entries[hs[i]] == Entry(d, false);
      }
      if Registered(u.entries, d) {
        var h :| h in u.entries && u.entries[h].dispatcher == d;
        if h in hs {
          var i :| 0 <= i < |hs| && hs[i] == h;
          assert h != 0 ==> ds[i].Some? && u.entries[h] == Entry(ds[i].value, false);
        }
      }
    }
  }

  lemma PinKeepsLives(c: Core, d: nat, on: bool, strays: set<nat>)
    requires LivesInv(c.table, strays) && Enabled(c, StepPin(d, on))
    ensures LivesInv(Next(c, StepPin(d, on)).table, strays)
  {
    SameLivesKeepInv(c.table, Next(c, StepPin(d, on)).table, strays);
  }

  /** Dispatchers that a step leaves open without a handle. */
  function Strayed(c: Core, step: Step): set<nat>
    requires Enabled(c, step)
  {
    match step
    case StepAdd(d, _) => if c.table.next == 0 then {d} else {}
    case StepRelease(m, sent) => if sent then LeftOpen(c.table, c.messages[m]) else {}
    case _ => {}
  }

  lemma StepKeepsLives(c: Core, step: Step, strays: set<nat>)
    requires Inv(c) && LivesInv(c.table, strays) && Enabled(c, step)
    ensures LivesInv(Next(c, step).table, strays + Strayed(c, step))
  {
    hide LivesInv, EntriesInv, OwnersInv, NamesInv, LeftOpen, SameLives, Close, Begin, Cancel, Complete;
    assert strays + {} == strays;
    match step
    case StepAdd(d, s) => AddKeepsLives(c, d, s, strays);
    case StepAddFromTransit(ds, states) => AddEachKeepsLives(c, ds, states, strays);
    case StepClose(h) => CloseKeepsLives(c.table, h, strays);
    case StepAcquire(m, hs) =>
      AcquireSameLives(c.table, hs);
      SameLivesKeepInv(c.table, Acquire(c.table, hs, []).1, strays);
    case StepRelease(m, sent) =>
      CompleteKeepsLives(c, m, strays);
      CancelSameLives(c.table, c.messages[m]);
      SameLivesKeepInv(c.table, Cancel(c.table, c.messages[m]), strays);
    case StepPin(d, on) => PinKeepsLives(c, d, on, strays);
  }

  lemma AcquireSameLives(t: Table, hs: seq<nat>)
    requires EntriesInv(t)
    ensures SameLives(t, Acquire(t, hs, []).1)
  {
    InvConsistent(t);
    AcquireIsAtomic(t, hs, []);
    BeginSameLives(t, hs);
  }

  /** All that strayed in the first `i` steps. */
  function Strays(states: seq<Core>, steps: seq<Step>, i: nat): set<nat>
    requires Run(states, steps) && i <= |steps|
  {
    if i == 0 then {}
    else
      assert Enabled(states[i - 1], steps[i - 1]);
      Strays(states, steps, i - 1) + Strayed(states[i - 1], steps[i - 1])
  }

  /**
   In every run a dispatcher is open exactly while a handle names it, but for one that found the table out of
   handles, and one of the base class that was sent.
   */
  lemma {:induction false} OpenIffRegistered(states: seq<Core>, steps: seq<Step>, i: nat)
    requires Run(states, steps) && i < |states|
    ensures LivesInv(states[i].table, Strays(states, steps, i))
  {
    hide LivesInv, Next, Enabled, Inv, Strayed, Init;
    if i == 0 {
      NoLives(states[0]);
    } else {
      OpenIffRegistered(states, steps, i - 1);
      RunKeepsInv(states, steps, i - 1);
      assert Enabled(states[i - 1], steps[i - 1]);
      StepKeepsLives(states[i - 1], steps[i - 1], Strays(states, steps, i - 1));
    }
  }

  lemma NoLives(c: Core)
    requires Init(c)
    ensures LivesInv(c.table, {})
  {
  }

  // ---- what acquiring and releasing do ----

  /** The message holds these handles, each with its dispatcher, and they are busy. */
  predicate Holds(c: Core, m: nat, hs: seq<nat>) {
    && m in c.messages && |c.messages[m]| == |hs|
    && forall i :: 0 <= i < |hs| ==>
         && c.messages[m][i].handle == hs[i] && hs[i] in c.table.entries
         && c.table.entries[hs[i]] == Entry(c.messages[m][i].dispatcher, true)
  }

  /** A message acquires all of its handles or changes nothing. */
  lemma AcquiresAllOrNothing(c: Core, m: nat, hs: seq<nat>)
    requires Inv(c) && m !in c.messages
    ensures var d := Next(c, StepAcquire(m, hs));
      if AllFree(c.table, hs) && Different(hs) then Holds(d, m, hs) && SameLives(c.table, d.table) else d == c
  {
    hide OwnersInv, NamesInv, Begin, Cancel, EntriesInv, SameLives;
    InvConsistent(c.table);
    AcquireIsAtomic(c.table, hs, []);
    AcquireSucceedsIff(c.table, hs);
    AcquireSameLives(c.table, hs);
    var ds := Begin(c.table, hs).2;
    assert [] + ds == ds;
  }

  function HandlesOf(ds: seq<InTransit>): set<nat> { set x <- ds :: x.handle }

  lemma HandlesSplit(ds: seq<InTransit>)
    requires ds != []
    ensures HandlesOf(ds) == {ds[0].handle} + HandlesOf(ds[1..])
  {
    assert ds == [ds[0]] + ds[1..];
  }

  predicate AllBusy(entries: map<nat, Entry>, ds: seq<InTransit>) {
    && DistinctHandles(ds)
    && forall i :: 0 <= i < |ds| ==> ds[i].handle in entries && entries[ds[i].handle] == Entry(ds[i].dispatcher, true)
  }

  lemma RestIsBusy(entries: map<nat, Entry>, ds: seq<InTransit>, e: Entry)
    requires AllBusy(entries, ds) && ds != []
    ensures AllBusy(entries - {ds[0].handle}, ds[1..]) && AllBusy(entries[ds[0].handle := e], ds[1..])
  {
  }

  lemma {:induction false} CompleteRemoves(t: Table, ds: seq<InTransit>)
    requires AllBusy(t.entries, ds)
    ensures Complete(t, ds).entries == t.entries - HandlesOf(ds)
    decreases |ds|
  {
    if ds != [] {
      RestIsBusy(t.entries, ds, Entry(0, false));
      HandlesSplit(ds);
      var u := Depart(t, ds[0]);
      assert u.entries == t.entries - {ds[0].handle};
      hide AllBusy, HandlesOf, Depart;
      CompleteRemoves(u, ds[1..]);
    }
  }

  /** The listed handles made idle. */
  function Idled(entries: map<nat, Entry>, handles: set<nat>): map<nat, Entry> {
    map h <- entries :: if h in handles then entries[h].(busy := false) else entries[h]
  }

  lemma {:induction false} CancelFrees(t: Table, ds: seq<InTransit>)
    requires AllBusy(t.entries, ds)
    ensures Cancel(t, ds).entries == Idled(t.entries, HandlesOf(ds))
    decreases |ds|
  {
    if ds == [] {
      assert Idled(t.entries, {}) == t.entries;
    } else {
      var h := ds[0].handle;
      RestIsBusy(t.entries, ds, t.entries[h].(busy := false));
      HandlesSplit(ds);
      var u := Unmark(t, ds[0]);
      assert u.entries == t.entries[h := t.entries[h].(busy := false)];
      hide AllBusy, HandlesOf, Unmark;
      CancelFrees(u, ds[1..]);
      assert Idled(u.entries, HandlesOf(ds[1..])) == Idled(t.entries, HandlesOf(ds));
    }
  }

  /** A message that was sent takes its handles out of the table; one that was not gives them back, idle. */
  lemma ReleaseFreesHandles(c: Core, m: nat, sent: bool)
    requires Inv(c) && m in c.messages
    ensures var (handles, d) := (HandlesOf(c.messages[m]), Next(c, StepRelease(m, sent)));
      && d.messages == c.messages - {m} && handles <= c.table.entries.Keys
      && (forall h <- handles :: c.table.entries[h].busy)
      && d.table.entries == if sent then c.table.entries - handles else Idled(c.table.entries, handles)
  {
    var ds := c.messages[m];
    forall x <- ds ensures x.handle in c.table.entries && c.table.entries[x.handle] == Entry(x.dispatcher, true) {
      HeldIsBusy(c.table.entries, c.messages, c.owner, m, x);
    }
    CompleteRemoves(c.table, ds);
    CancelFrees(c.table, ds);
    hide Complete, Cancel, NamesInv, EntriesInv, OwnersInv;
  }

  /** Closing a handle that is known and idle removes it and closes its dispatcher; closing another does nothing. */
  lemma ClosesIdleHandle(c: Core, h: nat)
    requires Inv(c)
    ensures var (t, u) := (c.table, Next(c, StepClose(h)).table);
      if h in t.entries && !t.entries[h].busy then
        var d := t.entries[h].dispatcher;
        && u.entries == t.entries - {h} && d in t.world && u.world == t.world[d := t.world[d].(closed := true)]
        && !Registered(u.entries, d)
      else u == t
  {
    if h in c.table.entries { RegisteredAfterRemoval(c.table, h, c.table.entries[h].dispatcher); }
  }

  /** A two-phase operation keeps a data pipe from travelling until it ends. */
  lemma PinnedStays(c: Core, h: nat, on: bool)
    requires Inv(c) && h in c.table.entries && Enabled(c, StepPin(c.table.entries[h].dispatcher, on))
    ensures var d := Next(c, StepPin(c.table.entries[h].dispatcher, on));
      && (on ==> !Free(d.table, h) && forall m :: m !in d.messages ==> Next(d, StepAcquire(m, [h])) == d)
      && (!on ==> Free(d.table, h))
  {
    hide OwnersInv, NamesInv;
    var d := Next(c, StepPin(c.table.entries[h].dispatcher, on));
    PinKeepsInv(c, c.table.entries[h].dispatcher, on);
    if on {
      assert [h][0] == h;
      forall m | m !in d.messages ensures Next(d, StepAcquire(m, [h])) == d {
        AcquiresAllOrNothing(d, m, [h]);
      }
    }
  }

  // ---- data pipes as dispatchers ----

  function ProducerState(p: Pipes.Producer): State { State(DataPipe, p.inTransit, p.isClosed, p.inTwoPhaseWrite) }

  function ConsumerState(c: Pipes.Consumer): State { State(DataPipe, c.inTransit, c.isClosed, c.inTwoPhaseRead) }

  /** What the table takes a dispatcher to do is what a producer does. */
  lemma ProducersTravel(p: Pipes.Producer)
    ensures var ((ok, q), s) := (Pipes.BeginProducerTransit(p), ProducerState(p));
      && ok == MayTravel(s) && (ok ==> ProducerState(q) == WithTransit(s, true)) && (!ok ==> q == p)
      && ProducerState(Pipes.CompleteProducerTransit(p)) == Departed(s)
  {
  }

  /** And what a consumer does. */
  lemma ConsumersTravel(c: Pipes.Consumer)
    ensures var ((ok, d), s) := (Pipes.BeginConsumerTransit(c), ConsumerState(c));
      && ok == MayTravel(s) && (ok ==> ConsumerState(d) == WithTransit(s, true)) && (!ok ==> d == c)
      && ConsumerState(Pipes.CompleteConsumerTransit(c)) == Departed(s)
  {
  }
}
