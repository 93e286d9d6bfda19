/** The handle table over whole runs of adds, closes, acquisitions and releases. */
module HandleTableRuns {
  import opened Basics
  import opened HandleTableSpec

  datatype Core = Core(
    table: Table,
    messages: map<nat, seq<InTransit>>,   // what each message being written has acquired
    // history, read by no step
    owner: map<nat, nat>,                 // the message that made a handle busy
    issued: set<nat>)                     // every handle ever given out

  datatype Step =
    | StepAdd(d: nat, s: State)
    | StepAddFromTransit(ds: seq<Option<nat>>, states: map<nat, State>)
    | StepClose(h: nat)
    | StepAcquire(m: nat, hs: seq<nat>)
    | StepRelease(m: nat, sent: bool)
    | StepPin(d: nat, on: bool)           // a two-phase operation begins or ends

  predicate Init(c: Core) {
    c == Core(Table(map[], 1, map[]), map[], map[], {})
  }

  /** A dispatcher that no table has seen. */
  predicate NewState(s: State) {
    !s.inTransit && !s.closed
  }

  predicate NoRepeats(ds: seq<Option<nat>>) {
    forall i, j :: 0 <= i < j < |ds| && ds[i].Some? ==> ds[i] != ds[j]
  }

  predicate Enabled(c: Core, step: Step) {
    match step
    case StepAdd(d, s) => d !in c.table.world && NewState(s)
    case StepAddFromTransit(ds, states) =>
      && NoRepeats(ds) && states.Keys !! c.table.world.Keys
      && (forall i :: 0 <= i < |ds| && ds[i].Some? ==> ds[i].value in states)
      && (forall d <- states :: NewState(states[d]) && Some(d) in ds)
    case StepClose(_) => true
    case StepAcquire(m, _) => m !in c.messages
    case StepRelease(m, _) => m in c.messages
    case StepPin(d, _) => d in c.table.world && c.table.world[d].kind.DataPipe? && !c.table.world[d].inTransit
  }

  function Owned(owner: map<nat, nat>, ds: seq<InTransit>, m: nat): map<nat, nat>
    decreases |ds|
  {
    if ds == [] then owner else Owned(owner[ds[0].handle := m], ds[1..], m)
  }

  function Disowned(owner: map<nat, nat>, ds: seq<InTransit>): map<nat, nat> {
    if ds == [] then owner else Disowned(owner - {ds[0].handle}, ds[1..])
  }

  function Handles(hs: seq<nat>): set<nat> {
    set h <- hs | h != 0
  }

  /** `Core::AddDispatchersFromTransit` closes all of the dispatchers when the table is out of handles. */
  function CloseAll(world: map<nat, State>, states: map<nat, State>): map<nat, State> {
    world + map d <- states :: states[d].(closed := true)
  }

  function WithWorld(t: Table, states: map<nat, State>): Table {
    t.(world := t.world + states)
  }

  function Next(c: Core, step: Step): Core
    requires Enabled(c, step)
  {
    var t := c.table;
    match step
    case StepAdd(d, s) =>
      var (u, h) := Add(t.(world := t.world[d := s]), d);
      c.(table := u, issued := c.issued + Handles([h]))
    case StepAddFromTransit(ds, states) =>
      if HasRoom(t, |ds|) then
        var (u, hs) := AddEach(WithWorld(t, states), ds);
        c.(table := u, issued := c.issued + Handles(hs))
      else
        c.(table := t.(world := CloseAll(t.world, states)))
    case StepClose(h) => c.(table := Close(t, h).1)
    case StepAcquire(m, hs) =>
      var (r, u, ds) := Acquire(t, hs, []);
      if r.Ok? then c.(table := u, messages := c.messages[m := ds], owner := Owned(c.owner, ds, m))
      else c.(table := u)
    case StepRelease(m, sent) =>
      var ds := c.messages[m];
      c.(table := if sent then Complete(t, ds) else Cancel(t, ds),
         messages := c.messages - {m}, owner := Disowned(c.owner, ds))
    case StepPin(d, on) => c.(table := t.(world := t.world[d := t.world[d].(pinned := on)]))
  }

  // ---- what every step keeps ----

  predicate NamesInv(t: Table, issued: set<nat>) {
    && t.next < HANDLE_LIMIT && t.entries.Keys <= issued
    && forall h <- issued :: 0 < h < HANDLE_LIMIT && (t.next == 0 || h < t.next)
  }

  /** Handles name distinct live dispatchers, and are busy exactly while those are in transit. */
  predicate EntriesInv(t: Table) {
    && (forall h <- t.entries :: t.entries[h].dispatcher in t.world && !t.world[t.entries[h].dispatcher].closed)
    && (forall h, g :: h in t.entries && g in t.entries && h != g ==>
        t.entries[h].dispatcher != t.entries[g].dispatcher)
    && (forall h <- t.entries :: !t.world[t.entries[h].dispatcher].kind.Plain? ==>
          (t.entries[h].busy <==> t.world[t.entries[h].dispatcher].inTransit))
    && (forall d <- t.world :: t.world[d].inTransit ==> !t.world[d].kind.Plain? && Registered(t.entries, d))
  }

  predicate Registered(entries: map<nat, Entry>, d: nat) {
    exists h :: h in entries && entries[h].dispatcher == d
  }

  predicate DistinctHandles(ds: seq<InTransit>) {
    forall i, j :: 0 <= i < j < |ds| ==> ds[i].handle != ds[j].handle
  }

  /** Busy handles are held by exactly one message each. */
  predicate OwnersInv(entries: map<nat, Entry>, messages: map<nat, seq<InTransit>>, owner: map<nat, nat>) {
    && (forall h <- entries :: entries[h].busy <==> h in owner)
    && (forall m <- messages :: DistinctHandles(messages[m]))
    && (forall h <- owner ::
          h in entries && owner[h] in messages && InTransit(h, entries[h].dispatcher) in messages[owner[h]])
    && (forall m, x :: m in messages && x in messages[m] ==>
          && x.handle in owner && owner[x.handle] == m
          && x.handle in entries && entries[x.handle].dispatcher == x.dispatcher)
  }

  predicate Inv(c: Core) {
    NamesInv(c.table, c.issued) && EntriesInv(c.table) && OwnersInv(c.table.entries, c.messages, c.owner)
  }

  lemma InvConsistent(t: Table)
    requires EntriesInv(t)
    ensures Consistent(t)
  {
  }

  // ---- one handle at a time ----

  lemma MarkKeepsEntries(t: Table, h: nat)
    requires EntriesInv(t) && Obstacle(t, h).Ok?
    ensures EntriesInv(Mark(t, h))
  {
    var u := Mark(t, h);
    forall d | d in u.world && u.world[d].inTransit ensures !u.world[d].kind.Plain? && Registered(u.entries, d) {
      if d == t.entries[h].dispatcher {
        assert h in u.entries;
      } else {
        var g :| g in t.entries && t.entries[g].dispatcher == d;
        assert g in u.entries;
      }
    }
  }

  lemma MarkKeepsOwners(t: Table, h: nat, messages: map<nat, seq<InTransit>>, owner: map<nat, nat>, m: nat)
    requires Obstacle(t, h).Ok? && OwnersInv(t.entries, messages, owner) && m in messages
    ensures OwnersInv(Mark(t, h).entries,
                      messages[m := messages[m] + [InTransit(h, t.entries[h].dispatcher)]], owner[h := m])
  {
  }

  lemma UnmarkKeepsEntries(t: Table, x: InTransit)
    requires EntriesInv(t) && x.handle in t.entries && t.entries[x.handle].dispatcher == x.dispatcher
    ensures EntriesInv(Unmark(t, x))
  {
    var u := Unmark(t, x);
    forall d | d in u.world && u.world[d].inTransit ensures !u.world[d].kind.Plain? && Registered(u.entries, d) {
      var g :| g in t.entries && t.entries[g].dispatcher == d;
      assert g in u.entries;
    }
  }

  lemma UnmarkKeepsOwners(t: Table, messages: map<nat, seq<InTransit>>, owner: map<nat, nat>, m: nat)
    requires OwnersInv(t.entries, messages, owner) && m in messages && messages[m] != []
    ensures OwnersInv(Unmark(t, messages[m][0]).entries, messages[m := messages[m][1..]],
        owner - {messages[m][0].handle})
  {
  }

  lemma DepartKeepsEntries(t: Table, x: InTransit)
    requires EntriesInv(t) && x.handle in t.entries && t.entries[x.handle] == Entry(x.dispatcher, true)
    ensures EntriesInv(Depart(t, x))
  {
    var u := Depart(t, x);
    forall d | d in u.world && u.world[d].inTransit ensures !u.world[d].kind.Plain? && Registered(u.entries, d) {
      var g :| g in t.entries && t.entries[g].dispatcher == d;
      assert g in u.entries;
    }
  }

  lemma DepartKeepsOwners(t: Table, messages: map<nat, seq<InTransit>>, owner: map<nat, nat>, m: nat)
    requires OwnersInv(t.entries, messages, owner) && m in messages && messages[m] != []
    ensures OwnersInv(Depart(t, messages[m][0]).entries, messages[m := messages[m][1..]],
        owner - {messages[m][0].handle})
  {
    hide Departed;
    var x := messages[m][0];
    assert x in messages[m] && t.entries[x.handle].busy;
    assert Depart(t, x).entries == t.entries - {x.handle};
  }

  // ---- whole steps ----

  lemma {:induction false} BeginKeepsInv(c: Core, m: nat, hs: seq<nat>)
    requires Inv(c) && m in c.messages
    ensures var (r, u, ds) := Begin(c.table, hs);
      Inv(c.(table := u, messages := c.messages[m := c.messages[m] + ds], owner := Owned(c.owner, ds, m)))
    decreases |hs|
  {
    hide EntriesInv, OwnersInv, Mark, Obstacle;
    if hs == [] || !Obstacle(c.table, hs[0]).Ok? {
      assert c.messages[m] + [] == c.messages[m];
      assert c.messages[m := c.messages[m]] == c.messages;
    } else {
      var h, t := hs[0], c.table;
      MarkKeepsNames(t, h, c.issued);
      MarkKeepsEntries(t, h);
      var x := InTransit(h, t.entries[h].dispatcher);
      MarkKeepsOwners(t, h, c.messages, c.owner, m);
      var marked := Core(Mark(t, h), c.messages[m := c.messages[m] + [x]], c.owner[h := m], c.issued);
      BeginKeepsInv(marked, m, hs[1..]);
      var (r, u, ds) := Begin(Mark(t, h), hs[1..]);
      assert c.messages[m] + [x] + ds == c.messages[m] + ([x] + ds);
      assert marked.messages[m := marked.messages[m] + ds] == c.messages[m := c.messages[m] + ([x] + ds)];
      assert ([x] + ds)[1..] == ds;
    }
  }

  lemma MarkKeepsNames(t: Table, h: nat, issued: set<nat>)
    requires NamesInv(t, issued) && Obstacle(t, h).Ok?
    ensures h in t.entries && t.entries[h].dispatcher in t.world && NamesInv(Mark(t, h), issued)
  {
  }

  lemma EmptyMessageKeepsOwners(
    entries: map<nat, Entry>, messages: map<nat, seq<InTransit>>, owner: map<nat, nat>, m: nat)
    requires OwnersInv(entries, messages, owner)
    ensures m !in messages ==> OwnersInv(entries, messages[m := []], owner)
    ensures m in messages && messages[m] == [] ==> OwnersInv(entries, messages - {m}, owner)
  {
  }

  lemma AcquireKeepsInv(c: Core, m: nat, hs: seq<nat>)
    requires Inv(c) && m !in c.messages
    ensures Inv(Next(c, StepAcquire(m, hs)))
  {
    hide EntriesInv, OwnersInv, NamesInv, Begin;
    InvConsistent(c.table);
    AcquireIsAtomic(c.table, hs, []);
    EmptyMessageKeepsOwners(c.table.entries, c.messages, c.owner, m);
    BeginKeepsInv(c.(messages := c.messages[m := []]), m, hs);
    var ds := Begin(c.table, hs).2;
    assert [] + ds == ds;
    assert c.messages[m := []][m := ds] == c.messages[m := ds];
  }

  function Finish(t: Table, ds: seq<InTransit>, sent: bool): Table {
    if sent then Complete(t, ds) else Cancel(t, ds)
  }

  lemma {:induction false} FinishKeepsInv(c: Core, m: nat, sent: bool)
    requires Inv(c) && m in c.messages
    ensures var ds := c.messages[m];
      Inv(c.(table := Finish(c.table, ds, sent), messages := c.messages[m := []], owner := Disowned(c.owner, ds)))
    decreases |c.messages[m]|
  {
    hide EntriesInv, OwnersInv, NamesInv, Depart, Unmark;
    var ds := c.messages[m];
    if ds == [] {
      assert c.messages[m := []] == c.messages;
    } else {
      HeldIsBusy(c.table.entries, c.messages, c.owner, m, ds[0]);
      var u := if sent then Depart(c.table, ds[0]) else Unmark(c.table, ds[0]);
      if sent {
        DepartKeepsEntries(c.table, ds[0]);
        DepartKeepsOwners(c.table, c.messages, c.owner, m);
      } else {
        UnmarkKeepsEntries(c.table, ds[0]);
        UnmarkKeepsOwners(c.table, c.messages, c.owner, m);
      }
      FewerKeepNames(c.table, ds[0], c.issued);
      var rest := Core(u, c.messages[m := ds[1..]], c.owner - {ds[0].handle}, c.issued);
      FinishKeepsInv(rest, m, sent);
      assert rest.messages[m := []] == c.messages[m := []];
    }
  }

  lemma HeldIsBusy(
    entries: map<nat, Entry>, messages: map<nat, seq<InTransit>>, owner: map<nat, nat>, m: nat, x: InTransit)
    requires OwnersInv(entries, messages, owner) && m in messages && x in messages[m]
    ensures x.handle in entries && entries[x.handle] == Entry(x.dispatcher, true)
  {
  }

  lemma FewerKeepNames(t: Table, x: InTransit, issued: set<nat>)
    requires NamesInv(t, issued)
    ensures NamesInv(Unmark(t, x), issued) && NamesInv(Depart(t, x), issued)
  {
  }

  lemma ReleaseKeepsInv(c: Core, m: nat, sent: bool)
    requires Inv(c) && m in c.messages
    ensures Inv(Next(c, StepRelease(m, sent)))
  {
    hide EntriesInv, OwnersInv, NamesInv, Complete, Cancel;
    FinishKeepsInv(c, m, sent);
    var ds := c.messages[m];
    EmptyMessageKeepsOwners(Finish(c.table, ds, sent).entries, c.messages[m := []], Disowned(c.owner, ds), m);
    assert c.messages[m := []] - {m} == c.messages - {m};
  }

  lemma AddKeepsEntries(t: Table, d: nat)
    requires EntriesInv(t) && t.next !in t.entries
    requires d in t.world && NewState(t.world[d]) && !Registered(t.entries, d)
    ensures EntriesInv(Add(t, d).0)
  {
    var u := Add(t, d).0;
    forall e | e in u.world && u.world[e].inTransit ensures !u.world[e].kind.Plain? && Registered(u.entries, e) {
      var g :| g in t.entries && t.entries[g].dispatcher == e;
      assert g in u.entries;
    }
  }

  lemma AddKeepsInv(c: Core, d: nat)
    requires Inv(c) && d in c.table.world && NewState(c.table.world[d]) && !Registered(c.table.entries, d)
    ensures var (u, h) := Add(c.table, d); Inv(c.(table := u, issued := c.issued + Handles([h])))
    ensures Add(c.table, d).1 !in c.issued
  {
    hide EntriesInv;
    var t := c.table;
    var h := Add(t, d).1;
    AddKeepsEntries(t, d);
    if t.next == 0 {
      assert Handles([h]) == {};
      assert c.issued + {} == c.issued;
    } else {
      assert Handles([h]) == {h} && h !in t.entries;
    }
  }

  /** New dispatchers, not yet registered, change nothing. */
  lemma NewcomersKeepInv(c: Core, states: map<nat, State>)
    requires Inv(c) && states.Keys !! c.table.world.Keys && forall d <- states :: !states[d].inTransit
    ensures Inv(c.(table := c.table.(world := c.table.world + states)))
    ensures forall d <- states :: !Registered(c.table.entries, d)
  {
  }

  lemma CloseKeepsEntries(t: Table, h: nat)
    requires EntriesInv(t)
    ensures EntriesInv(Close(t, h).1)
  {
    var u := Close(t, h).1;
    if h in t.entries && !t.entries[h].busy {
      forall e | e in u.world && u.world[e].inTransit ensures !u.world[e].kind.Plain? && Registered(u.entries, e) {
        var g :| g in t.entries && t.entries[g].dispatcher == e;
        assert g in u.entries;
      }
    }
  }

  lemma CloseKeepsInv(c: Core, h: nat)
    requires Inv(c)
    ensures Inv(Next(c, StepClose(h)))
  {
    hide EntriesInv, OwnersInv;
    CloseKeepsEntries(c.table, h);
    CloseKeepsOwners(c.table, c.messages, c.owner, h);
  }

  lemma CloseKeepsOwners(t: Table, messages: map<nat, seq<InTransit>>, owner: map<nat, nat>, h: nat)
    requires OwnersInv(t.entries, messages, owner)
    ensures OwnersInv(Close(t, h).1.entries, messages, owner)
  {
  }

  lemma PinKeepsInv(c: Core, d: nat, on: bool)
    requires Inv(c) && Enabled(c, StepPin(d, on))
    ensures Inv(Next(c, StepPin(d, on)))
  {
  }

  // ---- a batch of new handles ----

  predicate Unregistered(t: Table, ds: seq<Option<nat>>) {
    && NoRepeats(ds)
    && forall i :: 0 <= i < |ds| && ds[i].Some? ==>
         ds[i].value in t.world && NewState(t.world[ds[i].value]) && !Registered(t.entries, ds[i].value)
  }

  lemma AddKeepsUnregistered(t: Table, ds: seq<Option<nat>>)
    requires ds != [] && Unregistered(t, ds)
    ensures Unregistered(if ds[0].None? then t else Add(t, ds[0].value).0, ds[1..])
  {
    assert forall i :: 0 <= i < |ds[1..]| ==> ds[1..][i] == ds[i + 1];
  }

  lemma {:induction false} AddEachKeepsInv(c: Core, ds: seq<Option<nat>>)
    requires Inv(c) && Unregistered(c.table, ds)
    ensures var (u, hs) := AddEach(c.table, ds);
      Inv(c.(table := u, issued := c.issued + Handles(hs)))
    decreases |ds|
  {
    hide Inv, Unregistered, Add;
    if ds == [] {
      assert c.issued + Handles([]) == c.issued;
    } else {
      AddKeepsUnregistered(c.table, ds);
      if ds[0].None? {
        AddEachKeepsInv(c, ds[1..]);
        var hs := AddEach(c.table, ds[1..]).1;
        assert Handles([0] + hs) == Handles(hs);
      } else {
        FirstIsUnregistered(c.table, ds);
        AddKeepsInv(c, ds[0].value);
        var (u, h) := Add(c.table, ds[0].value);
        AddEachKeepsInv(c.(table := u, issued := c.issued + Handles([h])), ds[1..]);
        var hs := AddEach(u, ds[1..]).1;
        assert c.issued + Handles([h]) + Handles(hs) == c.issued + Handles([h] + hs);
      }
    }
  }

  lemma FirstIsUnregistered(t: Table, ds: seq<Option<nat>>)
    requires ds != [] && ds[0].Some? && Unregistered(t, ds)
    ensures ds[0].value in t.world && NewState(t.world[ds[0].value]) && !Registered(t.entries, ds[0].value)
  {
  }

  lemma AddFromTransitKeepsInv(c: Core, ds: seq<Option<nat>>, states: map<nat, State>)
    requires Inv(c) && Enabled(c, StepAddFromTransit(ds, states))
    ensures Inv(Next(c, StepAddFromTransit(ds, states)))
  {
    hide Inv;
    var closed := map d <- states :: states[d].(closed := true);
    if HasRoom(c.table, |ds|) {
      NewcomersKeepInv(c, states);
      AddEachKeepsInv(c.(table := c.table.(world := c.table.world + states)), ds);
    } else {
      NewcomersKeepInv(c, closed);
    }
  }

  lemma StepKeepsInv(c: Core, step: Step)
    requires Inv(c) && Enabled(c, step)
    ensures Inv(Next(c, step))
  {
    hide Inv;
    match step
    case StepAdd(d, s) =>
      NewcomersKeepInv(c, map[d := s]);
      assert c.table.world + map[d := s] == c.table.world[d := s];
      AddKeepsInv(c.(table := c.table.(world := c.table.world[d := s])), d);
    case StepAddFromTransit(ds, states) => AddFromTransitKeepsInv(c, ds, states);
    case StepClose(h) => CloseKeepsInv(c, h);
    case StepAcquire(m, hs) => AcquireKeepsInv(c, m, hs);
    case StepRelease(m, sent) => ReleaseKeepsInv(c, m, sent);
    case StepPin(d, on) => PinKeepsInv(c, d, on);
  }

  // ---- runs ----

  predicate Run(states: seq<Core>, steps: seq<Step>) {
    && |states| == |steps| + 1 && Init(states[0])
    && forall i {:trigger steps[i]} :: 0 <= i < |steps| ==>
         Enabled(states[i], steps[i]) && states[i + 1] == Next(states[i], steps[i])
  }

  lemma {:induction false} RunKeepsInv(states: seq<Core>, steps: seq<Step>, i: nat)
    requires Run(states, steps) && i < |states|
    ensures Inv(states[i])
  {
    if i > 0 {
      hide Next, Enabled, Inv;
      RunKeepsInv(states, steps, i - 1);
      assert Enabled(states[i - 1], steps[i - 1]);
      StepKeepsInv(states[i - 1], steps[i - 1]);
    }
  }

  /** A handle is busy exactly while its dispatcher is in transit, and nothing in transit is ever closed. */
  lemma BusyIffInTransit(states: seq<Core>, steps: seq<Step>, i: nat)
    requires Run(states, steps) && i < |states|
    ensures var t := states[i].table;
      && (forall h <- t.entries :: t.entries[h].dispatcher in t.world)
      && (forall h <- t.entries :: !t.world[t.entries[h].dispatcher].kind.Plain? ==>
            (t.entries[h].busy <==> t.world[t.entries[h].dispatcher].inTransit))
      && (forall d <- t.world :: t.world[d].inTransit ==> !t.world[d].closed)
  {
    hide Next, Enabled;
    RunKeepsInv(states, steps, i);
    var t := states[i].table;
    forall d | d in t.world && t.world[d].inTransit ensures !t.world[d].closed {
      var h :| h in t.entries && t.entries[h].dispatcher == d;
    }
  }

  /** The debug checks of the two releases hold: what a message holds is there, busy, and held once. */
  lemma ReleaseFindsItsHandles(states: seq<Core>, steps: seq<Step>, i: nat, m: nat)
    requires Run(states, steps) && i < |states| && m in states[i].messages
    ensures var c := states[i];
      && DistinctHandles(c.messages[m])
      && (forall x <- c.messages[m] ::
            x.handle in c.table.entries && c.table.entries[x.handle] == Entry(x.dispatcher, true))
      && (forall n, x :: n in c.messages && n != m && x in c.messages[n] ==> x !in c.messages[m])
  {
    hide Next, Enabled;
    RunKeepsInv(states, steps, i);
  }

  /** Handles given out by a step have never been given out before, in this batch or any other. */
  lemma NeverReissued(states: seq<Core>, steps: seq<Step>, i: nat)
    requires Run(states, steps) && i < |steps|
    ensures match steps[i]
      case StepAdd(d, s) => Add(states[i].table, d).1 !in states[i].issued
      case StepAddFromTransit(ds, newcomers) =>
        HasRoom(states[i].table, |ds|) ==>
            FreshHandles(AddEach(WithWorld(states[i].table, newcomers), ds).1, states[i].issued)
      case _ => states[i + 1].issued == states[i].issued
  {
    RunKeepsInv(states, steps, i);
    assert Enabled(states[i], steps[i]);
    match steps[i]
    case StepAddFromTransit(ds, newcomers) =>
      if HasRoom(states[i].table, |ds|) { BatchIsFresh(WithWorld(states[i].table, newcomers), ds, states[i].issued); }
    case _ =>
  }

  predicate FreshHandles(hs: seq<nat>, issued: set<nat>) {
    && (forall i :: 0 <= i < |hs| && hs[i] != 0 ==> hs[i] < HANDLE_LIMIT && hs[i] !in issued)
    && (forall i, j :: 0 <= i < j < |hs| && hs[i] != 0 ==> hs[i] != hs[j])
  }

  lemma BatchIsFresh(t: Table, ds: seq<Option<nat>>, issued: set<nat>)
    requires NamesInv(t, issued) && HasRoom(t, |ds|)
    ensures FreshHandles(AddEach(t, ds).1, issued)
  {
    AddEachCounts(t, ds);
  }

  // ---- when an acquisition succeeds ----

  predicate Different(hs: seq<nat>) {
    forall i, j :: 0 <= i < j < |hs| ==> hs[i] != hs[j]
  }

  /** The handle is known and idle, and not that of a data pipe in a two-phase operation. */
  predicate Free(t: Table, h: nat) {
    && h in t.entries && !t.entries[h].busy && t.entries[h].dispatcher in t.world
    && var s := t.world[t.entries[h].dispatcher]; !(s.kind.DataPipe? && s.pinned)
  }

  predicate AllFree(t: Table, hs: seq<nat>) {
    forall i :: 0 <= i < |hs| ==> Free(t, hs[i])
  }

  lemma FreeIffNoObstacle(t: Table, h: nat)
    requires EntriesInv(t)
    ensures Obstacle(t, h) == if h !in t.entries then InvalidArgument else if Free(t, h) then Ok else Busy
  {
  }

  lemma MarkBlocksOnlyItself(t: Table, h: nat, g: nat)
    requires EntriesInv(t) && Free(t, h)
    ensures Obstacle(t, h).Ok? && (Free(Mark(t, h), g) <==> g != h && Free(t, g))
  {
  }

  /**
   An acquisition succeeds exactly when the handles are all different and each is known, idle and not that of a
   data pipe in a two-phase operation; it then returns each handle with its dispatcher, in order, all of them busy.
   */
  lemma {:induction false} AcquireSucceedsIff(t: Table, hs: seq<nat>)
    requires EntriesInv(t)
    ensures var (r, u, ds) := Begin(t, hs);
      && (r.Ok? <==> AllFree(t, hs) && Different(hs))
      && u.entries.Keys == t.entries.Keys
      && (forall h <- t.entries ::
            u.entries[h].dispatcher == t.entries[h].dispatcher && (t.entries[h].busy ==> u.entries[h].busy))
      && (r.Ok? ==> |ds| == |hs|
                    && forall i :: 0 <= i < |hs| ==>
                        hs[i] in u.entries && ds[i] == InTransit(hs[i], u.entries[hs[i]].dispatcher)
                                                     && u.entries[hs[i]].busy)
    decreases |hs|
  {
    if hs != [] {
      FreeIffNoObstacle(t, hs[0]);
      if Free(t, hs[0]) {
        var u, rest := Mark(t, hs[0]), hs[1..];
        MarkKeepsEntries(t, hs[0]);
        AcquireSucceedsIff(u, rest);
        RestIsFree(t, hs);
        hide EntriesInv;
      }
    }
  }

  lemma RestIsFree(t: Table, hs: seq<nat>)
    requires EntriesInv(t) && hs != [] && Free(t, hs[0])
    ensures Obstacle(t, hs[0]).Ok?
    ensures AllFree(Mark(t, hs[0]), hs[1..]) && Different(hs[1..]) <==> AllFree(t, hs) && Different(hs)
  {
    FreeIffNoObstacle(t, hs[0]);
    var u, rest := Mark(t, hs[0]), hs[1..];
    forall g ensures Free(u, g) <==> g != hs[0] && Free(t, g) {
      MarkBlocksOnlyItself(t, hs[0], g);
    }
    hide Free, Mark, EntriesInv;
    assert forall i :: 0 < i < |hs| ==> hs[i] == rest[i - 1];
    if AllFree(u, rest) && Different(rest) {
      forall i | 0 < i < |hs| ensures hs[i] != hs[0] && Free(t, hs[i]) {
        assert Free(u, rest[i - 1]);
      }
    }
  }

  /** Handle `k` is the first that cannot be acquired, because it is not free or was listed before. */
  predicate FirstRefused(t: Table, hs: seq<nat>, k: nat) {
    k < |hs| && AllFree(t, hs[..k]) && Different(hs[..k]) && !(Free(t, hs[k]) && hs[k] !in hs[..k])
  }

  /** A failed acquisition stops at the first such handle, and says whether it is unknown or taken. */
  lemma {:induction false} AcquireFailsAt(t: Table, hs: seq<nat>, k: nat)
    requires EntriesInv(t) && FirstRefused(t, hs, k)
    ensures Begin(t, hs).0 == (if hs[k] in t.entries then Busy else InvalidArgument) && |Begin(t, hs).2| == k
    decreases |hs|
  {
    FreeIffNoObstacle(t, hs[0]);
    if k > 0 {
      assert hs[..k][0] == hs[0] && Free(t, hs[0]);
      var u, rest := Mark(t, hs[0]), hs[1..];
      MarkKeepsEntries(t, hs[0]);
      RestIsFree(t, hs[..k]);
      assert hs[..k][1..] == rest[..k - 1] && rest[k - 1] == hs[k];
      MarkBlocksOnlyItself(t, hs[0], hs[k]);
      assert hs[..k] == [hs[0]] + rest[..k - 1];
      AcquireFailsAt(u, rest, k - 1);
    }
  }

  lemma {:induction false} SomeRefused(t: Table, hs: seq<nat>) returns (k: nat)
    requires !(AllFree(t, hs) && Different(hs))
    ensures FirstRefused(t, hs, k)
    decreases |hs|
  {
    var last := |hs| - 1;
    if AllFree(t, hs[..last]) && Different(hs[..last]) {
      assert hs == hs[..last] + [hs[last]];
      return last;
    }
    k := SomeRefused(t, hs[..last]);
    assert hs[..last][..k] == hs[..k];
  }

  /** The status of `AcquireDispatchersForTransit`, whatever it was asked for. */
  lemma AcquireStatus(t: Table, hs: seq<nat>, held: seq<InTransit>)
    requires EntriesInv(t)
    ensures var r := Acquire(t, hs, held).0;
      && (r.Ok? <==> AllFree(t, hs) && Different(hs))
      && (!r.Ok? ==> exists k: nat :: FirstRefused(t, hs, k))
      && (forall k: nat :: FirstRefused(t, hs, k) ==> r == if hs[k] in t.entries then Busy else InvalidArgument)
  {
    hide EntriesInv, Free;
    AcquireSucceedsIff(t, hs);
    if !Begin(t, hs).0.Ok? { var k := SomeRefused(t, hs); }
    forall k: nat | FirstRefused(t, hs, k)
      ensures Begin(t, hs).0 == if hs[k] in t.entries then Busy else InvalidArgument
    {
      AcquireFailsAt(t, hs, k);
    }
  }
}
