// What a reorganisation leaves, said of the events alone: which outpoints go back into which request,
// which to the timelock queue, and which requests get a new claim.
module ClaimUndone {
  import opened Common
  import opened Packages
  import opened ClaimState
  import opened ClaimInvariant
  import opened ClaimSpend
  import opened ClaimMature
  import opened ClaimReorg
  import opened ClaimTheorems

  // ---- What goes back where ----

  // The spend happened above `height` and its outpoint belongs back in the request `id`.
  ghost predicate Rejoins(e: Entry, claimable: Links, id: ClaimId, height: nat) {
    && e.height > height && e.event.Contentious?
    && InputLocktime(e.event.package.inputs[0].1) <= height
    && SpentOut(e) in claimable && claimable[SpentOut(e)].0 == id
  }

  // What goes back into the request `id`, in the order of the events.
  ghost function Returning(events: seq<Entry>, claimable: Links, id: ClaimId, height: nat): seq<Piece> {
    if events == [] then []
    else (if Rejoins(events[0], claimable, id, height) then [events[0].event.package] else [])
         + Returning(events[1..], claimable, id, height)
  }

  // ---- The timelock queue as a collection ----

  ghost function GroupItems(key: nat, ps: seq<Package>): multiset<(nat, Package)> {
    if ps == [] then multiset{} else multiset{(key, ps[0])} + GroupItems(key, ps[1..])
  }

  // Every timelocked package with the height it waits for.
  ghost function QueueItems(q: Queue): multiset<(nat, Package)> {
    if q == [] then multiset{} else GroupItems(q[0].0, q[0].1) + QueueItems(q[1..])
  }

  ghost predicate Ascending(q: Queue) {
    |q| <= 1 || (q[0].0 < q[1].0 && Ascending(q[1..]))
  }

  lemma {:induction false} GroupItemsPush(key: nat, ps: seq<Package>, p: Package)
    ensures GroupItems(key, ps + [p]) == GroupItems(key, ps) + multiset{(key, p)}
  {
    if ps == [] {
      assert [] + [p] == [p];
      assert GroupItems(key, [p]) == multiset{(key, p)} + GroupItems(key, []);
    } else {
      assert (ps + [p])[0] == ps[0] && (ps + [p])[1..] == ps[1..] + [p];
      GroupItemsPush(key, ps[1..], p);
    }
  }

  // Queueing a package files it under its locktime and nothing else.
  lemma {:induction false} EnqueueItems(q: Queue, key: nat, p: Package)
    ensures QueueItems(Enqueue(q, key, p)) == QueueItems(q) + multiset{(key, p)}
  {
    if q == [] || key < q[0].0 {
      assert ([(key, [p])] + q)[1..] == q;
      assert GroupItems(key, [p]) == multiset{(key, p)} + GroupItems(key, []);
    } else if key == q[0].0 {
      assert ([(key, q[0].1 + [p])] + q[1..])[1..] == q[1..];
      GroupItemsPush(key, q[0].1, p);
    } else {
      EnqueueItems(q[1..], key, p);
      assert ([q[0]] + Enqueue(q[1..], key, p))[1..] == Enqueue(q[1..], key, p);
    }
  }

  lemma {:induction false} EnqueueAscends(q: Queue, key: nat, p: Package)
    requires Ascending(q)
    ensures Ascending(Enqueue(q, key, p))
  {
    if q != [] && key > q[0].0 {
      EnqueueAscends(q[1..], key, p);
      assert Enqueue(q, key, p)[1..] == Enqueue(q[1..], key, p);
    } else if q != [] && key == q[0].0 {
      assert Enqueue(q, key, p)[1..] == q[1..];
    } else {
      assert Enqueue(q, key, p)[1..] == q;
    }
  }

  // What goes back to the timelock queue, with the height each outpoint waits for.
  ghost function Requeued(events: seq<Entry>, height: nat): multiset<(nat, Package)> {
    if events == [] then multiset{}
    else
      var e := events[0];
      (if e.height > height && e.event.Contentious? && InputLocktime(e.event.package.inputs[0].1) > height then
         multiset{(InputLocktime(e.event.package.inputs[0].1), e.event.package)}
       else multiset{})
      + Requeued(events[1..], height)
  }

  // ---- Undoing ----

  // Each request ends with what goes back into it.
  ghost predicate Rejoined(s: State, now: Requests, todo: seq<Entry>, height: nat) {
    && now.Keys == s.pending.Keys
    && forall id :: id in s.pending ==>
         now[id] == JoinedAll(s.pending[id], Returning(todo, s.claimable, id, height))
  }

  // The bump candidates gain just the requests that something goes back into, as they are now.
  ghost predicate Marked(s: State, bumps: Requests, now: Requests, after: Requests, todo: seq<Entry>, height: nat) {
    forall id :: MarkedIn(Returning(todo, s.claimable, id, height), bumps, now, after, id)
  }

  ghost predicate MarkedIn(back: seq<Piece>, bumps: Requests, now: Requests, after: Requests, id: ClaimId) {
    if id in now && back != [] then id in after && after[id] == now[id]
    else (id in after <==> id in bumps) && (id in after ==> after[id] == bumps[id])
  }

  ghost predicate PutBack(s: State, bumps: Requests, t: State, after: Requests, todo: seq<Entry>, height: nat) {
    && t.claimable == s.claimable
    && Rejoined(s, t.pending, todo, height)
    && Marked(s, bumps, t.pending, after, todo, height)
    && t.events == s.events + Below(todo, height)
    && QueueItems(t.locktimed) == QueueItems(s.locktimed) + Requeued(todo, height)
    && (Ascending(s.locktimed) ==> Ascending(t.locktimed))
  }

  lemma ReturningOne(e: Entry, claimable: Links, id: ClaimId, height: nat)
    ensures Returning([e], claimable, id, height) ==
            if Rejoins(e, claimable, id, height) then [e.event.package] else []
  {
    hide Rejoins;
    assert [e][1..] == [];
  }

  lemma RequeuedOne(e: Entry, height: nat)
    ensures Requeued([e], height) ==
            if e.height > height && e.event.Contentious? && InputLocktime(e.event.package.inputs[0].1) > height then
              multiset{(InputLocktime(e.event.package.inputs[0].1), e.event.package)}
            else multiset{}
  {
    hide InputLocktime;
    assert [e][1..] == [];
    assert Requeued([], height) == multiset{};
  }

  // An event that goes into no request.
  lemma NoneRejoins(s: State, e: Entry, height: nat)
    requires forall id :: !Rejoins(e, s.claimable, id, height)
    ensures Rejoined(s, s.pending, [e], height)
    ensures forall bumps :: Marked(s, bumps, s.pending, bumps, [e], height)
  {
    hide Rejoins, Returning, JoinedAll;
    forall id ensures Returning([e], s.claimable, id, height) == [] {
      ReturningOne(e, s.claimable, id, height);
    }
    forall id | id in s.pending ensures JoinedAll(s.pending[id], []) == s.pending[id] {
      JoinedNothing(s.pending[id]);
    }
  }

  lemma OneRejoins(s: State, bumps: Requests, e: Entry, height: nat, id: ClaimId)
    requires id in s.pending && Rejoins(e, s.claimable, id, height)
    ensures
      var m := Joined(s.pending[id], e.event.package);
      && Rejoined(s, s.pending[id := m], [e], height)
      && Marked(s, bumps, s.pending[id := m], bumps[id := m], [e], height)
  {
    hide InputLocktime, Returning, JoinedAll, Joined;
    forall i ensures Returning([e], s.claimable, i, height) == if i == id then [e.event.package] else [] {
      ReturningOne(e, s.claimable, i, height);
    }
    forall i | i in s.pending
      ensures JoinedAll(s.pending[i], []) == s.pending[i]
      ensures JoinedAll(s.pending[i], [e.event.package]) == Joined(s.pending[i], e.event.package)
    {
      JoinedNothing(s.pending[i]);
      JoinedOne(s.pending[i], e.event.package);
    }
  }

  lemma JoinedOne(p: Package, q: Piece)
    ensures JoinedAll(p, [q]) == Joined(p, q)
  {
    assert [q][1..] == [];
  }

  lemma JoinedNothing(p: Package)
    ensures JoinedAll(p, []) == p
  {
  }

  lemma UndoOnePutsBack(s: State, bumps: Requests, e: Entry, height: nat)
    requires UndoOne(s, bumps, e, height).Some? && Linked(s.pending, s.claimable)
    ensures
      var r := UndoOne(s, bumps, e, height).value;
      PutBack(s, bumps, r.0, r.1, [e], height)
  {
    hide PackageLocktime, InputLocktime, Enqueue, QueueItems, Ascending, Below, Returning, JoinedAll, CanMergeWith,
      Rejoined, Marked, Requeued;
    BelowOne(e, height);
    assert s.events + [] == s.events;
    RequeuedOne(e, height);
    if e.height > height && e.event.Contentious? {
      var p, o := e.event.package, SpentOut(e);
      PieceLocktime(p, 0);
      if InputLocktime(p.inputs[0].1) > height {
        EnqueueItems(s.locktimed, PackageLocktime(p, 0), p);
        if Ascending(s.locktimed) { EnqueueAscends(s.locktimed, PackageLocktime(p, 0), p); }
        NoneRejoins(s, e, height);
      } else if o in s.claimable {
        OneRejoins(s, bumps, e, height, s.claimable[o].0);
      } else {
        NoneRejoins(s, e, height);
      }
    } else {
      NoneRejoins(s, e, height);
    }
  }

  lemma ReturningFirst(todo: seq<Entry>, claimable: Links, id: ClaimId, height: nat)
    requires todo != []
    ensures Returning(todo, claimable, id, height) ==
            Returning([todo[0]], claimable, id, height) + Returning(todo[1..], claimable, id, height)
  {
    hide Rejoins;
    ReturningOne(todo[0], claimable, id, height);
  }

  lemma RequeuedFirst(todo: seq<Entry>, height: nat)
    requires todo != []
    ensures Requeued(todo, height) == Requeued([todo[0]], height) + Requeued(todo[1..], height)
  {
    hide InputLocktime;
    RequeuedOne(todo[0], height);
  }

  lemma RejoinedMore(s: State, t: State, now: Requests, todo: seq<Entry>, height: nat)
    requires todo != [] && t.claimable == s.claimable
    requires Rejoined(s, t.pending, [todo[0]], height) && Rejoined(t, now, todo[1..], height)
    ensures Rejoined(s, now, todo, height)
  {
    hide Returning, JoinedAll;
    forall id | id in s.pending
      ensures now[id] == JoinedAll(s.pending[id], Returning(todo, s.claimable, id, height))
    {
      ReturningFirst(todo, s.claimable, id, height);
      JoinedConcat(s.pending[id], Returning([todo[0]], s.claimable, id, height),
                   Returning(todo[1..], s.claimable, id, height));
    }
  }

  lemma MarkedMore(s: State, t: State, now: Requests, x: Requests, y: Requests, z: Requests, todo: seq<Entry>,
                   height: nat)
    requires todo != [] && t.claimable == s.claimable && Rejoined(t, now, todo[1..], height)
    requires Marked(s, x, t.pending, y, [todo[0]], height) && Marked(t, y, now, z, todo[1..], height)
    ensures Marked(s, x, now, z, todo, height)
  {
    hide Returning, JoinedAll;
    assert now.Keys == t.pending.Keys;
    forall id ensures MarkedIn(Returning(todo, s.claimable, id, height), x, now, z, id) {
      ReturningFirst(todo, s.claimable, id, height);
      if id in now { JoinedNothing(t.pending[id]); }
      assert MarkedIn(Returning([todo[0]], s.claimable, id, height), x, t.pending, y, id);
      assert MarkedIn(Returning(todo[1..], s.claimable, id, height), y, now, z, id);
    }
  }

  lemma PutBackMore(s: State, t: State, u: State, x: Requests, y: Requests, z: Requests, todo: seq<Entry>, height: nat)
    requires todo != []
    requires PutBack(s, x, t, y, [todo[0]], height) && PutBack(t, y, u, z, todo[1..], height)
    ensures PutBack(s, x, u, z, todo, height)
  {
    hide Below, QueueItems, Ascending, Rejoined, Marked, Requeued;
    var e, rest := todo[0], todo[1..];
    assert todo == [e] + rest;
    BelowConcat([e], rest, height);
    RequeuedFirst(todo, height);
    RejoinedMore(s, t, u.pending, todo, height);
    MarkedMore(s, t, u.pending, x, y, z, todo, height);
  }

  lemma NothingPutBack(s: State, bumps: Requests, height: nat)
    ensures PutBack(s, bumps, s, bumps, [], height)
  {
    hide QueueItems, Ascending;
    assert Requeued([], height) == multiset{};
    BelowNothing([], height);
    assert s.events + [] == s.events;
  }

  lemma {:induction false} UndoPutsBack(s: State, bumps: Requests, todo: seq<Entry>, height: nat)
    requires Undo(s, bumps, todo, height).Some? && Linked(s.pending, s.claimable)
    ensures
      var (t, after) := Undo(s, bumps, todo, height).value;
      PutBack(s, bumps, t, after, todo, height)
    decreases todo
  {
    hide UndoOne, PutBack, Linked;
    if todo == [] {
      NothingPutBack(s, bumps, height);
    } else {
      var r := UndoOne(s, bumps, todo[0], height).value;
      UndoOnePutsBack(s, bumps, todo[0], height);
      PutBackLinked(s, bumps, r.0, r.1, [todo[0]], height);
      UndoPutsBack(r.0, r.1, todo[1..], height);
      var (t, after) := Undo(s, bumps, todo, height).value;
      PutBackMore(s, r.0, t, bumps, r.1, after, todo, height);
    }
  }

  lemma PutBackLinked(s: State, bumps: Requests, t: State, after: Requests, todo: seq<Entry>, height: nat)
    requires PutBack(s, bumps, t, after, todo, height) && Linked(s.pending, s.claimable)
    ensures Linked(t.pending, t.claimable)
  {
    hide QueueItems, Ascending, Marked, Returning, JoinedAll, Requeued, Below;
  }

  // ---- The whole step ----

  lemma {:induction false} BelowMembers(events: seq<Entry>, height: int)
    ensures forall e :: e in Below(events, height) <==> e in events && e.height <= height
  {
    if events != [] {
      var n := |events| - 1;
      assert events == events[..n] + [events[n]];
      BelowMembers(events[..n], height);
    }
  }

  // Some outpoint of the request was created above `height`.
  ghost predicate TooYoung(claimable: Links, id: ClaimId, height: nat) {
    exists o :: o in claimable && claimable[o].0 == id && claimable[o].1 > height
  }

  // Disconnecting gives up exactly the requests created above `height`, keeps exactly the older
  // events, in their order, and files exactly the spent outpoints whose locktime is ahead again.
  lemma DisconnectKeepsExactly(s: State, height: nat, oracle: Oracle)
    requires Consistent(s) && Disconnect(s, height, oracle).Some?
    ensures
      var v := Disconnect(s, height, oracle).value;
      && (forall id :: id in v.pending <==> id in s.pending && !TooYoung(s.claimable, id, height))
      && (forall o :: o in v.claimable <==> o in s.claimable && s.claimable[o].1 <= height)
      && (forall o :: o in v.claimable ==> v.claimable[o] == s.claimable[o])
      && v.events == Below(s.events, height)
      && QueueItems(v.locktimed) == QueueItems(s.locktimed) + Requeued(s.events, height)
      && (Ascending(s.locktimed) ==> Ascending(v.locktimed))
  {
    hide Inv, NoDup, Undo, QueueItems, Ascending, Returning, JoinedAll, Requeued, Below, Bumped, Core, LowPlaces,
      NoneReturns, Current;
    var t, after := UndoneParts(s, height, oracle);
    assert [] + Below(s.events, height) == Below(s.events, height);
    var v, u := Disconnect(s, height, oracle).value, Restore(t, after, height, oracle);
    forall id | id in after ensures id in t.pending {
      assert Returning(s.events, s.claimable, id, height) != [];
    }
    assert u.pending.Keys == t.pending.Keys;
  }

  lemma UndoneParts(s: State, height: nat, oracle: Oracle) returns (t: State, after: Requests)
    requires Consistent(s) && Disconnect(s, height, oracle).Some?
    ensures Disconnect(s, height, oracle) == Some(Erase(Restore(t, after, height, oracle), height))
    ensures PutBack(s.(events := []), map[], t, after, s.events, height)
    ensures Core(t)
  {
    hide Inv, NoDup, Undo, PutBack, Core, LowPlaces, NoneReturns, Current, Linked, Restore, Erase;
    UndoneIs(s, height, oracle);
    ConsistentIsCore(s, height);
    CoreLinked(s);
    UndoPutsBack(s.(events := []), map[], s.events, height);
    t, after := Undone(s, height).value.0, Undone(s, height).value.1;
  }

  // A request that stays has got back, at its end and in the order of the events, exactly what was
  // split off it above `height`. When that is something, no claim of it is confirmed at or below
  // `height` and a claim can be built at `height`, it has the timer and feerate of that claim; a
  // request that gets nothing back is unchanged.
  lemma DisconnectBumpsExactlyWhen(s: State, height: nat, oracle: Oracle, id: ClaimId)
    requires Consistent(s) && Disconnect(s, height, oracle).Some?
    requires id in Disconnect(s, height, oracle).value.pending
    ensures id in s.pending
    ensures
      var back := Returning(s.events, s.claimable, id, height);
      var request := JoinedAll(s.pending[id], back);
      var claim := oracle(height, request);
      Disconnect(s, height, oracle).value.pending[id] ==
        if back == [] then s.pending[id]
        else if !(exists e :: e in s.events && e.height <= height && e.event == Claimed(id)) && claim.Some? then
          request.(timer := claim.value.timer, feerate := claim.value.feerate)
        else request
  {
    hide Inv, NoDup, QueueItems, Ascending, Returning, JoinedAll, Requeued, Below, GenerateClaim, Core;
    var t, after := UndoneParts(s, height, oracle);
    var u := Restore(t, after, height, oracle);
    assert [] + Below(s.events, height) == Below(s.events, height);
    BelowMembers(s.events, height);
    assert id in u.pending;
    forall i | i in after ensures i in t.pending {
      assert Returning(s.events, s.claimable, i, height) != [];
    }
    JoinedNothing(s.pending[id]);
    CoreOwned(t, id);
    GeneratedExactlyWhen(t, id, height, oracle);
  }

  lemma CoreOwned(t: State, id: ClaimId)
    requires Core(t) && id in t.pending
    ensures Owned(t.pending, t.claimable, Contested(t.events)) && t.pending[id].inputs != []
  {
    hide Records, NoDup, FormedQueue, Linked, Owned;
  }

  // ---- Unconfirming a transaction, abandoning an outpoint ----

  // The event at `i` is the first in the list that the transaction caused.
  ghost predicate FirstOf(events: seq<Entry>, txid: nat, i: nat) {
    i < |events| && events[i].txid == txid && forall j :: 0 <= j < i ==> events[j].txid != txid
  }

  lemma {:induction false} FirstHeightIs(events: seq<Entry>, txid: nat, i: nat)
    requires FirstOf(events, txid, i)
    ensures FirstHeight(events, txid) == Some(events[i].height)
  {
    if i > 0 {
      assert events[0].txid != txid;
      forall j | 0 <= j < i - 1 ensures events[1..][j].txid != txid {
        assert events[1..][j] == events[j + 1];
      }
      FirstHeightIs(events[1..], txid, i - 1);
    }
  }

  lemma {:induction false} NoFirstHeight(events: seq<Entry>, txid: nat)
    requires forall e :: e in events ==> e.txid != txid
    ensures FirstHeight(events, txid) == None
  {
    if events != [] { NoFirstHeight(events[1..], txid); }
  }

  // Without an event of the transaction nothing happens. Otherwise the blocks from the height of its
  // first event up are disconnected.
  lemma UnconfirmIs(s: State, txid: nat, oracle: Oracle, i: nat)
    ensures (forall e :: e in s.events ==> e.txid != txid) ==> Unconfirm(s, txid, oracle) == Some(s)
    ensures FirstOf(s.events, txid, i) ==>
              Unconfirm(s, txid, oracle) ==
              if s.events[i].height == 0 then None else Disconnect(s, s.events[i].height - 1, oracle)
  {
    hide Disconnect;
    if forall e :: e in s.events ==> e.txid != txid { NoFirstHeight(s.events, txid); }
    if FirstOf(s.events, txid, i) { FirstHeightIs(s.events, txid, i); }
  }

  // A transaction none of whose events is older than the first has no event left.
  lemma UnconfirmForgets(s: State, txid: nat, oracle: Oracle, i: nat)
    requires Consistent(s) && FirstOf(s.events, txid, i) && Unconfirm(s, txid, oracle).Some?
    requires forall e :: e in s.events && e.txid == txid ==> e.height >= s.events[i].height
    ensures forall e :: e in Unconfirm(s, txid, oracle).value.events ==> e.txid != txid
  {
    hide Disconnect, Consistent, Below;
    UnconfirmIs(s, txid, oracle, i);
    DisconnectKeepsExactly(s, s.events[i].height - 1, oracle);
    BelowMembers(s.events, s.events[i].height - 1);
  }

  lemma {:induction false} DropHoldingItems(key: nat, ps: seq<Package>, o: OutPoint, k: nat, p: Package)
    ensures GroupItems(key, DropHolding(ps, o))[(k, p)] == if Holds(p, o) then 0 else GroupItems(key, ps)[(k, p)]
  {
    hide Holds;
    if ps != [] {
      DropHoldingItems(key, ps[1..], o, k, p);
      if !Holds(ps[0], o) {
        assert ([ps[0]] + DropHolding(ps[1..], o))[1..] == DropHolding(ps[1..], o);
      } else {
        assert [] + DropHolding(ps[1..], o) == DropHolding(ps[1..], o);
      }
    }
  }

  lemma {:induction false} DropFromQueueItems(q: Queue, o: OutPoint, k: nat, p: Package)
    ensures QueueItems(DropFromQueue(q, o))[(k, p)] == if Holds(p, o) then 0 else QueueItems(q)[(k, p)]
  {
    hide Holds, GroupItems, DropHolding;
    if q != [] {
      DropFromQueueItems(q[1..], o, k, p);
      DropHoldingItems(q[0].0, q[0].1, o, k, p);
      assert ([(q[0].0, DropHolding(q[0].1, o))] + DropFromQueue(q[1..], o))[1..] == DropFromQueue(q[1..], o);
    }
  }

  // Abandoning an outpoint gives up the request found for it, with the links of what it holds, or when
  // none is found the timelocked packages that hold the outpoint; everything else stays.
  lemma AbandonIs(s: State, o: OutPoint, found: Option<ClaimId>)
    ensures
      var t := Abandon(s, o, found);
      && t.events == s.events
      && (forall id :: id in t.pending <==> id in s.pending && found != Some(id))
      && (forall id :: id in t.pending ==> t.pending[id] == s.pending[id])
      && (forall x :: x in t.claimable <==>
            x in s.claimable && forall id :: found == Some(id) && id in s.pending ==> !Holds(s.pending[id], x))
      && (forall x :: x in t.claimable ==> t.claimable[x] == s.claimable[x])
      && (forall k: nat, p :: QueueItems(t.locktimed)[(k, p)] ==
            if found.None? && Holds(p, o) then 0 else QueueItems(s.locktimed)[(k, p)])
  {
    hide QueueItems, DropFromQueue, Outs;
    match found
    case None =>
      forall k: nat, p
        ensures QueueItems(DropFromQueue(s.locktimed, o))[(k, p)] ==
                if Holds(p, o) then 0 else QueueItems(s.locktimed)[(k, p)]
      {
        DropFromQueueItems(s.locktimed, o, k, p);
      }
    case Some(id) =>
      if id in s.pending { OutsAreIndices(s.pending[id].inputs); }
  }
}
