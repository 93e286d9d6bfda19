/** The handle table as the object that `Core` holds: its map and cache are changed in place. */
module HandleTables {
  import opened Basics
  import opened HandleTableSpec

  class HandleTable {
    var handles: map<nat, Entry>
    var lastReadHandle: nat
    var lastReadDispatcher: Option<nat>
    var nextAvailableHandle: nat
    var dispatchers: map<nat, State>       // the dispatcher objects, by identity

    ghost function Value(): Table
      reads this
    {
      Table(handles, nextAvailableHandle, dispatchers)
    }

    /** The cache, when it holds a handle, holds what the map says of it. */
    ghost predicate Valid()
      reads this
    {
      && WellFormed(Value())
      && (lastReadHandle != 0 ==>
          lastReadHandle in handles && lastReadDispatcher == Some(handles[lastReadHandle].dispatcher))
    }

    constructor ()
      ensures Valid() && Value() == Table(map[], 1, map[])
    {
      handles, lastReadHandle, lastReadDispatcher := map[], 0, None;
      nextAvailableHandle, dispatchers := 1, map[];
    }

    /** `unordered_map::emplace`, which leaves an existing entry alone. */
    method Emplace(h: nat, e: Entry) returns (inserted: bool)
      modifies this`handles
      ensures inserted == (h !in old(handles))
      ensures handles == if inserted then old(handles)[h := e] else old(handles)
    {
      inserted := h !in handles;
      if inserted { handles := handles[h := e]; }
    }

    /** Takes the next handle for a dispatcher; the entry is always inserted. */
    method Insert(d: nat) returns (handle: nat)
      requires Valid() && d in dispatchers && nextAvailableHandle != 0
      modifies this`handles, this`nextAvailableHandle
      ensures Valid() && (Value(), handle) == Add(old(Value()), d)
      ensures handle !in old(handles)
    {
      handle := nextAvailableHandle;
      nextAvailableHandle := (nextAvailableHandle + 1) % HANDLE_LIMIT;
      var inserted := Emplace(handle, Entry(d, false));
      assert inserted;
    }

    method AddDispatcher(d: nat) returns (handle: nat)
      requires Valid() && d in dispatchers
      modifies this`handles, this`nextAvailableHandle
      ensures Valid() && (Value(), handle) == Add(old(Value()), d)
      ensures handle !in old(handles)
    {
      if nextAvailableHandle == 0 { return 0; }
      handle := Insert(d);
    }

    /** Refuses the whole batch, changing nothing, when it might run out of handles on the way. */
    method AddDispatchersFromTransit(ds: seq<Option<nat>>) returns (ok: bool, added: seq<nat>)
      requires Valid() && forall i :: 0 <= i < |ds| && ds[i].Some? ==> ds[i].value in dispatchers
      modifies this`handles, this`nextAvailableHandle
      ensures Valid() && (ok <==> old(nextAvailableHandle) != 0 && old(nextAvailableHandle) + |ds| <= HANDLE_LIMIT)
      ensures ok ==> (Value(), added) == AddEach(old(Value()), ds)
      ensures !ok ==> Value() == old(Value())
      ensures ok ==> CountsUp(added, ds, old(nextAvailableHandle))
    {
      if nextAvailableHandle == 0 { return false, []; }
      var available := (HANDLE_LIMIT - 1) - nextAvailableHandle + 1;
      if available < |ds| { return false, []; }
      AddEachCounts(Value(), ds);
      hide AddEach, CountsUp;
      added := AddAll(ds);
      return true, added;
    }

    /** The loop of `AddDispatchersFromTransit`. */
    method AddAll(ds: seq<Option<nat>>) returns (added: seq<nat>)
      requires Valid() && HasRoom(Value(), |ds|) && forall i :: 0 <= i < |ds| && ds[i].Some? ==>
          ds[i].value in dispatchers
      modifies this`handles, this`nextAvailableHandle
      ensures Valid() && (Value(), added) == AddEach(old(Value()), ds)
    {
      hide AddEach, Valid, Add, HasRoom, Underway;
      ghost var start := Value();
      AddEachStarts(start, ds);
      added := [];
      var i := 0;
      while i < |ds|
        invariant 0 <= i <= |ds| && Valid() && dispatchers == start.world
        invariant i < |ds| ==> HasRoom(Value(), |ds| - i)
        invariant Underway(start, ds, Value(), added, i)
      {
        ghost var before := Value();
        AddLeavesRoom(before, ds[i], |ds| - i);
        var handle := 0;
        if ds[i].Some? {
          handle := Insert(ds[i].value);
        }
        AddEachStep(start, ds, before, added, i, Value(), handle);
        added := added + [handle];
        i := i + 1;
      }
      AddEachEnds(start, ds, Value(), added);
    }

    /** The cached lookup returns what a plain lookup in the map would. */
    method GetDispatcher(handle: nat) returns (d: Option<nat>)
      requires Valid()
      modifies this`lastReadHandle, this`lastReadDispatcher
      ensures Valid() && d == Lookup(old(Value()), handle)
      ensures Value() == old(Value())
    {
      if lastReadHandle != 0 && lastReadHandle == handle { return lastReadDispatcher; }
      if handle !in handles { return None; }
      lastReadHandle := handle;
      lastReadDispatcher := Some(handles[handle].dispatcher);
      return lastReadDispatcher;
    }

    method Remove(handle: nat, onlyIfBusy: bool) returns (status: Status, d: Option<nat>)
      requires Valid()
      modifies this
      ensures Valid() && dispatchers == old(dispatchers) && nextAvailableHandle == old(nextAvailableHandle)
      ensures handle !in old(handles) ==> status == NotFound
      ensures handle in old(handles) ==> status == if old(handles)[handle].busy then Busy else Ok
      ensures d.Some? <==> handle in old(handles) && onlyIfBusy == old(handles)[handle].busy
      ensures handles == if d.Some? then old(handles) - {handle} else old(handles)
      ensures d.Some? ==> d.value == old(handles)[handle].dispatcher
    {
      if handle !in handles { return NotFound, None; }
      var isBusy := handles[handle].busy;
      d := None;
      if onlyIfBusy == isBusy {
        d := Some(handles[handle].dispatcher);
        if handle == lastReadHandle { lastReadHandle, lastReadDispatcher := 0, None; }
        handles := handles - {handle};
      }
      status := if isBusy then Busy else Ok;
    }

    /** `Core::Close`: the handle is removed under the lock, then its dispatcher is closed. */
    method CloseHandle(handle: nat) returns (status: Status)
      requires Valid()
      modifies this
      ensures Valid() && (status, Value()) == Close(old(Value()), handle)
      ensures status.InvalidArgument? <==> handle !in old(handles)
      ensures status.Busy? <==> handle in old(handles) && old(handles)[handle].busy
      ensures status.Ok? <==> handle in old(handles) && !old(handles)[handle].busy
      ensures status.Ok? ==>
        var d := old(handles)[handle].dispatcher;
        && handles == old(handles) - {handle} && d in dispatchers && dispatchers[d].closed
        && dispatchers == old(dispatchers)[d := old(dispatchers)[d].(closed := true)]
      ensures !status.Ok? ==> handles == old(handles) && dispatchers == old(dispatchers)
      ensures nextAvailableHandle == old(nextAvailableHandle)
    {
      var found, d := Remove(handle, false);
      if found.NotFound? { return InvalidArgument; }
      if found.Busy? { return Busy; }
      dispatchers := dispatchers[d.value := dispatchers[d.value].(closed := true)];
      return Ok;
    }

    method BeginTransit(hs: seq<nat>, held: seq<InTransit>) returns (status: Status, ds: seq<InTransit>)
      requires Valid()
      modifies this
      ensures Valid() && nextAvailableHandle == old(nextAvailableHandle)
      ensures (status, Value()) == (Begin(old(Value()), hs).0, Begin(old(Value()), hs).1)
      ensures ds == held + Begin(old(Value()), hs).2
    {
      ds := held;
      ghost var start := Value();
      var i := 0;
      while i < |hs|
        invariant 0 <= i <= |hs| && Valid() && nextAvailableHandle == start.next
        invariant Begin(start, hs).0 == Begin(Value(), hs[i..]).0
        invariant Begin(start, hs).1 == Begin(Value(), hs[i..]).1
        invariant held + Begin(start, hs).2 == ds + Begin(Value(), hs[i..]).2
      {
        var h := hs[i];
        assert hs[i..][0] == h && hs[i..][1..] == hs[i + 1..];
        if h !in handles { return InvalidArgument, ds; }
        if handles[h].busy { return Busy, ds; }
        var d := handles[h].dispatcher;
        if !MayTravel(dispatchers[d]) { return Busy, ds; }
        ghost var before := Value();
        dispatchers := dispatchers[d := WithTransit(dispatchers[d], true)];
        handles := handles[h := Entry(d, true)];
        assert Value() == Mark(before, h);
        ds := ds + [InTransit(h, d)];
        i := i + 1;
      }
      return Ok, ds;
    }

    /** Every listed handle must be in the table, busy: the source checks this in debug builds. */
    method CancelTransit(ds: seq<InTransit>)
      requires Valid() && forall i :: 0 <= i < |ds| ==> ds[i].handle in handles && ds[i].dispatcher in dispatchers
      modifies this
      ensures Valid() && Value() == Cancel(old(Value()), ds)
    {
      hide WellFormed, WithTransit;
      ghost var start := Value();
      var i := 0;
      while i < |ds|
        invariant 0 <= i <= |ds| && Valid() && handles.Keys == start.entries.Keys
            && dispatchers.Keys == start.world.Keys
        invariant Cancel(start, ds) == Cancel(Value(), ds[i..])
      {
        ghost var before := Value();
        var x := ds[i];
        assert ds[i..][0] == x && ds[i..][1..] == ds[i + 1..];
        handles := handles[x.handle := handles[x.handle].(busy := false)];
        dispatchers := dispatchers[x.dispatcher := WithTransit(dispatchers[x.dispatcher], false)];
        assert Value() == Unmark(before, x);
        UnmarkKeepsForm(before, x);
        i := i + 1;
      }
    }

    method CompleteTransitAndClose(ds: seq<InTransit>)
      requires Valid() && forall i :: 0 <= i < |ds| ==> ds[i].dispatcher in dispatchers
      modifies this
      ensures Valid() && Value() == Complete(old(Value()), ds)
    {
      ghost var start := Value();
      var i := 0;
      while i < |ds|
        invariant 0 <= i <= |ds| && Valid() && dispatchers.Keys == start.world.Keys
        invariant Complete(start, ds) == Complete(Value(), ds[i..])
      {
        ghost var before := Value();
        var x := ds[i];
        assert ds[i..][0] == x && ds[i..][1..] == ds[i + 1..];
        var _, _ := Remove(x.handle, true);
        dispatchers := dispatchers[x.dispatcher := Departed(dispatchers[x.dispatcher])];
        assert Value() == Depart(before, x);
        i := i + 1;
      }
    }

    /** `Core::AcquireDispatchersForTransit`: on failure all that was acquired before is cancelled too, and no more. */
    method AcquireDispatchersForTransit(hs: seq<nat>, held: seq<InTransit>) returns (status: Status, ds: seq<InTransit>)
      requires Valid() && Consistent(Value())
      requires forall i :: 0 <= i < |held| ==> held[i].handle in handles && held[i].dispatcher in dispatchers
      modifies this
      ensures Valid() && (status, Value(), ds) == Acquire(old(Value()), hs, held)
      ensures !status.Ok? ==> Value() == Cancel(old(Value()), held)
      ensures !status.Ok? && held == [] ==> Value() == old(Value())
    {
      ghost var start := Value();
      status, ds := BeginTransit(hs, held);
      AcquireIsAtomic(start, hs, held);
      if !status.Ok? {
        BegunAreListed(start, hs);
        CancelTransit(ds);
      }
    }
  }

  lemma {:induction false} BegunAreListed(t: Table, hs: seq<nat>)
    ensures var (r, u, ds) := Begin(t, hs);
      && u.entries.Keys == t.entries.Keys && u.world.Keys == t.world.Keys
      && forall i :: 0 <= i < |ds| ==> ds[i].handle in t.entries && ds[i].dispatcher in t.world
    decreases |hs|
  {
    if hs != [] && Obstacle(t, hs[0]).Ok? {
      BegunAreListed(Mark(t, hs[0]), hs[1..]);
    }
  }

  lemma AddLeavesRoom(t: Table, d: Option<nat>, n: nat)
    requires HasRoom(t, n) && n > 0
    ensures t.next != 0
    ensures n > 1 ==> HasRoom(t, n - 1) && (d.Some? ==> HasRoom(Add(t, d.value).0, n - 1))
    ensures d.Some? ==> Add(t, d.value).0.world == t.world
  {
  }

  /** After `i` dispatchers the table `t` and the handles `added` are on the way to the result. */
  ghost predicate Underway(start: Table, ds: seq<Option<nat>>, t: Table, added: seq<nat>, i: nat) {
    i <= |ds| && AddEach(start, ds) == (AddEach(t, ds[i..]).0, added + AddEach(t, ds[i..]).1)
  }

  lemma AddEachStep(start: Table, ds: seq<Option<nat>>, t: Table, added: seq<nat>, i: nat, u: Table, h: nat)
    requires i < |ds| && Underway(start, ds, t, added, i)
    requires (u, h) == if ds[i].None? then (t, 0) else Add(t, ds[i].value)
    ensures Underway(start, ds, u, added + [h], i + 1)
  {
    assert ds[i..][0] == ds[i] && ds[i..][1..] == ds[i + 1..];
    var hs := AddEach(u, ds[i + 1..]).1;
    assert AddEach(t, ds[i..]).1 == [h] + hs;
    assert added + ([h] + hs) == (added + [h]) + hs;
  }

  lemma AddEachStarts(start: Table, ds: seq<Option<nat>>)
    ensures Underway(start, ds, start, [], 0)
  {
    assert ds[0..] == ds && [] + AddEach(start, ds).1 == AddEach(start, ds).1;
  }

  lemma AddEachEnds(start: Table, ds: seq<Option<nat>>, t: Table, added: seq<nat>)
    requires Underway(start, ds, t, added, |ds|)
    ensures AddEach(start, ds) == (t, added)
  {
    assert AddEach(t, ds[|ds|..]) == (t, []) && added + [] == added;
  }
}
