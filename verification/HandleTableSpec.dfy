/**
 The handle table: a map from handles to dispatchers with a one-entry cache, a counter that names new
 handles, and the protocol that marks handles busy while their dispatchers travel in a message.
 Dispatchers are reached by reference, so their states are kept apart from the entries, by identity.
 */
module HandleTableSpec {
  import opened Basics

  /** MOJO_HANDLE_INVALID is 0; handles are 64-bit words. */
  const HANDLE_LIMIT: nat := 0x1_0000_0000_0000_0000

  /** The kinds of dispatcher that differ in `BeginTransit`; `Plain` is the base class. */
  datatype Kind = MessagePipe | DataPipe | PlatformHandle | SharedBuffer | Plain

  /** `pinned`: a data pipe is in a two-phase operation. */
  datatype State = State(kind: Kind, inTransit: bool, closed: bool, pinned: bool)

  datatype Entry = Entry(dispatcher: nat, busy: bool)

  datatype InTransit = InTransit(handle: nat, dispatcher: nat)

  datatype Status = Ok | Busy | InvalidArgument | NotFound

  datatype Table = Table(entries: map<nat, Entry>, next: nat, world: map<nat, State>)

  // ---- dispatchers ----

  /** Whether `BeginTransit` succeeds. */
  predicate MayTravel(s: State) {
    match s.kind
    case MessagePipe => !s.inTransit && !s.closed
    case DataPipe => !s.inTransit && !s.pinned
    case PlatformHandle => !s.inTransit && !s.closed
    case SharedBuffer => !s.inTransit && !s.closed
    case Plain => true
  }

  function WithTransit(s: State, on: bool): State {
    if s.kind.Plain? then s else s.(inTransit := on)
  }

  /** `CompleteTransitAndClose`. */
  function Departed(s: State): State {
    if s.kind.Plain? then s else s.(inTransit := false, closed := true)
  }

  // ---- the table as a value ----

  predicate WellFormed(t: Table) {
    && t.next < HANDLE_LIMIT
    && forall h <- t.entries :: 0 < h < HANDLE_LIMIT && (t.next == 0 || h < t.next)
        && t.entries[h].dispatcher in t.world
  }

  function Add(t: Table, d: nat): (Table, nat) {
    if t.next == 0 then (t, 0)
    else (t.(entries := t.entries[t.next := Entry(d, false)], next := (t.next + 1) % HANDLE_LIMIT), t.next)
  }

  function AddEach(t: Table, ds: seq<Option<nat>>): (Table, seq<nat>)
    decreases |ds|
  {
    if ds == [] then (t, [])
    else if ds[0].None? then
      var (u, hs) := AddEach(t, ds[1..]);
      (u, [0] + hs)
    else
      var (u, h) := Add(t, ds[0].value);
      var (w, hs) := AddEach(u, ds[1..]);
      (w, [h] + hs)
  }

  predicate HasRoom(t: Table, n: nat) {
    t.next != 0 && n <= HANDLE_LIMIT - t.next
  }

  function Lookup(t: Table, h: nat): Option<nat> {
    if h in t.entries then Some(t.entries[h].dispatcher) else None
  }

  /** Marks one handle busy, for `BeginTransit`. */
  function Mark(t: Table, h: nat): Table
    requires h in t.entries && t.entries[h].dispatcher in t.world
  {
    var d := t.entries[h].dispatcher;
    t.(entries := t.entries[h := Entry(d, true)], world := t.world[d := WithTransit(t.world[d], true)])
  }

  /** Why a handle cannot be marked. */
  function Obstacle(t: Table, h: nat): Status {
    if h !in t.entries || t.entries[h].dispatcher !in t.world then InvalidArgument
    else if t.entries[h].busy || !MayTravel(t.world[t.entries[h].dispatcher]) then Busy
    else Ok
  }

  function Begin(t: Table, hs: seq<nat>): (Status, Table, seq<InTransit>)
    decreases |hs|
  {
    if hs == [] then (Ok, t, [])
    else if !Obstacle(t, hs[0]).Ok? then (Obstacle(t, hs[0]), t, [])
    else
      var (r, u, ds) := Begin(Mark(t, hs[0]), hs[1..]);
      (r, u, [InTransit(hs[0], t.entries[hs[0]].dispatcher)] + ds)
  }

  function Unmark(t: Table, d: InTransit): Table {
    var entries :=
      if d.handle in t.entries then t.entries[d.handle := t.entries[d.handle].(busy := false)]
      else t.entries;
    var world :=
      if d.dispatcher in t.world then t.world[d.dispatcher := WithTransit(t.world[d.dispatcher], false)]
      else t.world;
    t.(entries := entries, world := world)
  }

  lemma UnmarkKeepsForm(t: Table, d: InTransit)
    requires WellFormed(t)
    ensures WellFormed(Unmark(t, d))
  {
    hide WithTransit;
  }

  function Cancel(t: Table, ds: seq<InTransit>): Table
    decreases |ds|
  {
    if ds == [] then t else Cancel(Unmark(t, ds[0]), ds[1..])
  }

  /** `Remove` under the condition kRemoveOnlyIfBusy, then the dispatcher's own part. */
  function Depart(t: Table, d: InTransit): Table {
    var entries := if d.handle in t.entries && t.entries[d.handle].busy then t.entries - {d.handle} else t.entries;
    var world := if d.dispatcher in t.world then t.world[d.dispatcher := Departed(t.world[d.dispatcher])] else t.world;
    t.(entries := entries, world := world)
  }

  function Complete(t: Table, ds: seq<InTransit>): Table
    decreases |ds|
  {
    if ds == [] then t else Complete(Depart(t, ds[0]), ds[1..])
  }

  function Acquire(t: Table, hs: seq<nat>, held: seq<InTransit>): (Status, Table, seq<InTransit>) {
    var (r, u, ds) := Begin(t, hs);
    (r, if r.Ok? then u else Cancel(u, held + ds), held + ds)
  }

  function Close(t: Table, h: nat): (Status, Table) {
    if h !in t.entries then (InvalidArgument, t)
    else if t.entries[h].busy then (Busy, t)
    else
      var d := t.entries[h].dispatcher;
      (Ok, t.(entries := t.entries - {h},
              world := if d in t.world then t.world[d := t.world[d].(closed := true)] else t.world))
  }

  // ---- cancelling undoes beginning ----

  lemma UnmarkCommutes(t: Table, a: InTransit, b: InTransit)
    ensures Unmark(Unmark(t, a), b) == Unmark(Unmark(t, b), a)
  {
    var x, y := Unmark(Unmark(t, a), b), Unmark(Unmark(t, b), a);
    assert x.entries == y.entries;
    assert x.world == y.world;
  }

  lemma {:induction false} CancelUnmark(t: Table, a: InTransit, ds: seq<InTransit>)
    ensures Cancel(Unmark(t, a), ds) == Unmark(Cancel(t, ds), a)
    decreases |ds|
  {
    if ds != [] {
      UnmarkCommutes(t, a, ds[0]);
      CancelUnmark(Unmark(t, ds[0]), a, ds[1..]);
    }
  }

  lemma {:induction false} CancelSplit(t: Table, xs: seq<InTransit>, ys: seq<InTransit>)
    ensures Cancel(t, xs + ys) == Cancel(Cancel(t, ys), xs)
    decreases |xs|
  {
    if xs == [] {
      assert xs + ys == ys;
    } else {
      assert (xs + ys)[0] == xs[0] && (xs + ys)[1..] == xs[1..] + ys;
      CancelSplit(Unmark(t, xs[0]), xs[1..], ys);
      CancelUnmark(t, xs[0], ys);
    }
  }

  lemma UnmarkMark(t: Table, h: nat)
    requires Obstacle(t, h).Ok? && Consistent(t)
    ensures Unmark(Mark(t, h), InTransit(h, t.entries[h].dispatcher)) == t
  {
    var u := Unmark(Mark(t, h), InTransit(h, t.entries[h].dispatcher));
    assert u.entries == t.entries;
    assert u.world == t.world;
  }

  /** A dispatcher of the base class has no flag to set. */
  predicate Consistent(t: Table) {
    forall d <- t.world :: t.world[d].kind.Plain? ==> !t.world[d].inTransit
  }

  lemma {:induction false} CancelUndoesBegin(t: Table, hs: seq<nat>)
    requires Consistent(t)
    ensures Cancel(Begin(t, hs).1, Begin(t, hs).2) == t
    decreases |hs|
  {
    if hs != [] && Obstacle(t, hs[0]).Ok? {
      var u := Mark(t, hs[0]);
      var (r, w, ds) := Begin(u, hs[1..]);
      var d := InTransit(hs[0], t.entries[hs[0]].dispatcher);
      CancelUndoesBegin(u, hs[1..]);
      assert Begin(t, hs).2[0] == d && Begin(t, hs).2[1..] == ds;
      CancelUnmark(w, d, ds);
      UnmarkMark(t, hs[0]);
    }
  }

  /**
   `AcquireDispatchersForTransit` is atomic: on failure, whatever the handles (unknown, busy or
   repeated), the table is as if the vector it was given had been cancelled and nothing else, which
   from an empty vector is no change at all; on success every listed handle is busy.
   */
  lemma AcquireIsAtomic(t: Table, hs: seq<nat>, held: seq<InTransit>)
    requires Consistent(t)
    ensures var (r, u, ds) := Acquire(t, hs, held);
      && (!r.Ok? ==> u == Cancel(t, held))
      && (!r.Ok? && held == [] ==> u == t)
      && (r.Ok? ==> u == Begin(t, hs).1)
  {
    var (r, u, ds) := Begin(t, hs);
    CancelSplit(u, held, ds);
    CancelUndoesBegin(t, hs);
  }

  // ---- new handles ----

  /** The new handles count up from the counter, skipping the missing dispatchers. */
  predicate CountsUp(hs: seq<nat>, ds: seq<Option<nat>>, next: nat) {
    && |hs| == |ds|
    && (forall i :: 0 <= i < |hs| ==> (hs[i] == 0 <==> ds[i].None?))
    && (forall i :: 0 <= i < |hs| && hs[i] != 0 ==> next <= hs[i] < HANDLE_LIMIT)
    && (forall i, j :: 0 <= i < j < |hs| && hs[i] != 0 && hs[j] != 0 ==> hs[i] < hs[j])
  }

  predicate Registers(entries: map<nat, Entry>, hs: seq<nat>, ds: seq<Option<nat>>) {
    |hs| == |ds| && forall i :: 0 <= i < |ds| && ds[i].Some? ==>
        hs[i] in entries && entries[hs[i]] == Entry(ds[i].value, false)
  }

  /** Other handles keep their entries. */
  ghost predicate Untouched(before: map<nat, Entry>, now: map<nat, Entry>, hs: seq<nat>) {
    forall h :: h == 0 || h !in hs ==> (h in now <==> h in before) && (h in before ==> now[h] == before[h])
  }

  lemma CountsUpFirst(h: nat, hs: seq<nat>, d: Option<nat>, ds: seq<Option<nat>>, next: nat, later: nat)
    requires CountsUp(hs, ds, later)
    requires d.None? ==> h == 0 && later == next
    requires d.Some? ==> 0 < h == next < HANDLE_LIMIT && (later == next + 1 || hs == [])
    ensures CountsUp([h] + hs, [d] + ds, next)
  {
    var (gs, es) := ([h] + hs, [d] + ds);
    assert forall i :: 0 < i < |gs| ==> gs[i] == hs[i - 1] && es[i] == ds[i - 1];
  }

  lemma AddStep(t: Table, d: Option<nat>, n: nat)
    requires t.next < HANDLE_LIMIT && HasRoom(t, n + 1)
    ensures d.Some? ==>
      var (u, h) := Add(t, d.value);
      && h == t.next != 0 && u.world == t.world && u.next < HANDLE_LIMIT
      && (n == 0 || (u.next == t.next + 1 && HasRoom(u, n)))
    ensures n == 0 || HasRoom(t, n)
  {
  }

  /** The counter never wraps before the last handle of a batch that has room. */
  lemma {:induction false} AddEachCounts(t: Table, ds: seq<Option<nat>>)
    requires t.next < HANDLE_LIMIT && (ds == [] || HasRoom(t, |ds|))
    ensures CountsUp(AddEach(t, ds).1, ds, t.next) && AddEach(t, ds).0.world == t.world
    decreases |ds|
  {
    if ds != [] {
      var rest := ds[1..];
      AddStep(t, ds[0], |rest|);
      var (u, h) := if ds[0].None? then (t, 0) else Add(t, ds[0].value);
      hide Add, CountsUp, HasRoom;
      AddEachCounts(u, rest);
      CountsUpLength(AddEach(u, rest).1, rest, u.next);
      CountsUpFirst(h, AddEach(u, rest).1, ds[0], rest, t.next, u.next);
      assert [ds[0]] + rest == ds;
    }
  }

  lemma CountsUpLength(hs: seq<nat>, ds: seq<Option<nat>>, next: nat)
    requires CountsUp(hs, ds, next)
    ensures |hs| == |ds|
  {
  }

  /** With room for the whole batch each dispatcher gets an entry of its own and no other entry changes. */
  lemma {:induction false} AddEachRegisters(t: Table, ds: seq<Option<nat>>)
    requires t.next < HANDLE_LIMIT && (ds == [] || HasRoom(t, |ds|))
    ensures var (u, hs) := AddEach(t, ds); Registers(u.entries, hs, ds) && Untouched(t.entries, u.entries, hs)
    decreases |ds|
  {
    if ds != [] {
      var rest := ds[1..];
      AddStep(t, ds[0], |rest|);
      var (t1, h) := if ds[0].None? then (t, 0) else Add(t, ds[0].value);
      AddEachRegisters(t1, rest);
      AddEachCounts(t1, rest);
      var (u, hs) := AddEach(t1, rest);
      assert AddEach(t, ds) == (u, [h] + hs);
      hide AddEach, HasRoom, Registers, Untouched;
      FirstRegisters(t.entries, t1.entries, u.entries, h, hs, ds);
    }
  }

  lemma FirstRegisters(
    before: map<nat, Entry>, mid: map<nat, Entry>, now: map<nat, Entry>, h: nat, hs: seq<nat>, ds: seq<Option<nat>>)
    requires h == 0 || h !in hs
    requires ds != [] && Registers(now, hs, ds[1..]) && Untouched(mid, now, hs)
    requires if ds[0].None? then h == 0 && mid == before else h != 0 && mid == before[h := Entry(ds[0].value, false)]
    ensures Registers(now, [h] + hs, ds) && Untouched(before, now, [h] + hs)
  {
    assert forall i :: 0 < i < |ds| ==> ([h] + hs)[i] == hs[i - 1] && ds[i] == ds[1..][i - 1];
    assert forall g :: g !in [h] + hs ==> g !in hs && g != h;
  }
}
