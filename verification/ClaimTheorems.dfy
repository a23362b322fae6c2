// The main results about spends and reorganisations of the claim tracker.
module ClaimTheorems {
  import opened Common
  import opened Packages
  import opened ClaimState
  import opened ClaimInvariant
  import opened ClaimSpend
  import opened ClaimMature
  import opened ClaimReorg

  // ---- Restoring and erasing ----

  lemma RestoreAlike(t: State, bumps: map<ClaimId, Package>, height: nat, oracle: Oracle)
    requires Current(t.pending, bumps)
    ensures Alike(t, Restore(t, bumps, height, oracle))
    ensures Restore(t, bumps, height, oracle).events == t.events
  {
    hide GenerateClaim;
    var u := Restore(t, bumps, height, oracle);
    forall id | id in t.pending
      ensures id in u.pending && u.pending[id].inputs == t.pending[id].inputs
      ensures KindOf(u.pending[id]) == KindOf(t.pending[id])
    {
      if id in bumps { BumpedAlike(t, bumps[id], height, oracle); }
    }
  }

  lemma BumpedAlike(s: State, p: Package, height: nat, oracle: Oracle)
    ensures var q := Bumped(s, p, height, oracle); q.inputs == p.inputs && KindOf(q) == KindOf(p)
  {
  }

  lemma AlikeCore(s: State, t: State)
    requires Alike(s, t) && s.events == t.events && Core(s)
    ensures Core(t)
  {
    hide Matching, Ordered, OneSpend, FormedEvents, Owned, NoDup, FormedQueue;
    AlikeKeepsRecordsOf(s, t);
    AlikeOwned(s, t, Contested(s.events));
  }

  lemma AlikeKeepsRecordsOf(s: State, t: State)
    requires Alike(s, t) && Records(s)
    ensures Records(t)
  {
    AlikeKeepsRecords(s, t);
  }

  lemma AlikeOwned(s: State, t: State, contested: set<OutPoint>)
    requires SameRequests(s, t) && s.claimable == t.claimable && Owned(s.pending, s.claimable, contested)
    ensures Owned(t.pending, t.claimable, contested)
  {
  }

  lemma AlikeLowPlaces(s: State, t: State, height: nat)
    requires Alike(s, t) && s.events == t.events && LowPlaces(s, height)
    ensures LowPlaces(t, height)
  {
    hide QueueApart;
  }

  // Erasing what was created above `height` leaves a consistent tracker.
  lemma EraseKeepsInv(s: State, height: nat)
    requires Core(s) && LowPlaces(s, height) && SameHeight(s.claimable)
    ensures Consistent(Erase(s, height))
  {
    hide Matching, Ordered, OneSpend, FormedEvents, QueueApart, WellFormed, FormedQueue, NoDup;
    var t := Erase(s, height);
    assert t.claimable == Low(s.claimable, height);
    EraseLive(s, t, height);
    MatureRecords(s, t);
    MatureSmall(s, t);
  }

  lemma EraseLive(s: State, t: State, height: nat)
    requires t == Erase(s, height) && SameHeight(s.claimable)
    requires Live(s.pending, Low(s.claimable, height), Contested(s.events))
    requires Owned(s.pending, s.claimable, Contested(s.events))
    ensures Live(t.pending, t.claimable, Contested(t.events)) && Owned(t.pending, t.claimable, Contested(t.events))
    ensures SameHeight(t.claimable)
  {
    hide ContestedAbove, Outs;
    forall o | o in t.claimable ensures t.claimable[o].0 in t.pending {
      forall p | p in s.claimable && s.claimable[p].1 > height ensures s.claimable[p].0 != s.claimable[o].0 {
      }
    }
    forall id, o | id in t.pending && Holds(t.pending[id], o) ensures o in t.claimable && t.claimable[o].0 == id {
      assert Holds(s.pending[id], o);
    }
  }

  // ---- Disconnecting blocks ----

  ghost function Undone(s: State, height: nat): Option<(State, map<ClaimId, Package>)> {
    Undo(s.(events := []), map[], s.events, height)
  }

  // A reorganisation panics exactly when some undone spend has to merge back into a request whose
  // own locktime lies more than one block above the new tip.
  lemma DisconnectPanicsExactlyWhen(s: State, height: nat, oracle: Oracle)
    requires Consistent(s)
    ensures Disconnect(s, height, oracle).Some? <==> AllFit(s.pending, s.claimable, s.events, height)
  {
    hide Core, LowPlaces, Consistent, AllFit;
    ConsistentIsCore(s, height);
    assert WithTodo(s.(events := []), s.events) == s;
    UndoMerges(s.(events := []), map[], s.events, height);
  }

  lemma UndoneIs(s: State, height: nat, oracle: Oracle)
    requires Consistent(s) && Disconnect(s, height, oracle).Some?
    ensures Undone(s, height).Some? && Undone(s, height).value.0.claimable == s.claimable
    ensures Core(Undone(s, height).value.0)
    ensures NoneReturns(s.claimable, s.events, height) ==> LowPlaces(Undone(s, height).value.0, height)
    ensures Current(Undone(s, height).value.0.pending, Undone(s, height).value.1)
  {
    hide Core, LowPlaces, Consistent, NoneReturns, QueueBag, Undo;
    ConsistentIsCore(s, height);
    assert WithTodo(s.(events := []), s.events) == s;
    UndoKeeps(s.(events := []), map[], s.events, height);
    CoreLinked(s);
    UndoMoves(s.(events := []), map[], s.events, height);
  }

  lemma CoreLinked(s: State)
    requires Core(s)
    ensures Linked(s.pending, s.claimable)
  {
  }

  // When it does not panic, the tracker stays consistent exactly when no outpoint that is still
  // claimed by a request goes back to the timelock queue.
  lemma DisconnectKeepsConsistentExactlyWhen(s: State, height: nat, oracle: Oracle)
    requires Consistent(s) && Disconnect(s, height, oracle).Some?
    ensures Consistent(Disconnect(s, height, oracle).value) <==> NoneReturns(s.claimable, s.events, height)
  {
    hide Core, LowPlaces, Inv, NoneReturns, Undo, Restore, Erase, AllFit, Alike, Live, Owned;
    UndoneIs(s, height, oracle);
    var (t, bumps) := Undone(s, height).value;
    RestoreAlike(t, bumps, height, oracle);
    var u := Restore(t, bumps, height, oracle);
    if NoneReturns(s.claimable, s.events, height) {
      AlikeCore(t, u);
      AlikeLowPlaces(t, u, height);
      ConsistentHeights(s);
      AlikeLinks(t, u);
      EraseKeepsInv(u, height);
    } else {
      ReturnedIsInconsistent(s, t, u, height);
    }
  }

  lemma ConsistentHeights(s: State)
    requires Consistent(s)
    ensures SameHeight(s.claimable)
  {
  }

  lemma AlikeLinks(s: State, t: State)
    requires Alike(s, t)
    ensures s.claimable == t.claimable && s.locktimed == t.locktimed && SameRequests(s, t)
  {
  }

  // The state after undoing, against the state before: requests and the queue gained exactly the
  // outpoints that were split off above `height`, each in the place its locktime calls for.
  ghost predicate Regained(s: State, t: State, height: nat) {
    && Gains(s, t)
    && t.events == Below(s.events, height)
    && (forall e :: e in s.events && Undoes(e, height) ==>
          if InputLocktime(e.event.package.inputs[0].1) > height then SpentOut(e) in QueueBag(t.locktimed)
          else SpentOut(e) in s.claimable ==> Tracked(t.pending, t.claimable, SpentOut(e)))
    && (forall o :: Tracked(t.pending, t.claimable, o) || o in QueueBag(t.locktimed) ==>
          Accounted(s.pending, s.claimable, QueueBag(s.locktimed), ContestedAbove(s.events, height), o))
  }

  lemma UndoneRegained(s: State, height: nat)
    requires Consistent(s) && Undone(s, height).Some?
    ensures Regained(s, Undone(s, height).value.0, height)
  {
    hide Core, LowPlaces, Undo, QueueBag, Below, ContestedAbove, Tracked, Moved, Gains, Consistent, InputLocktime;
    ConsistentIsCore(s, height);
    CoreLinked(s);
    UndoMoves(s.(events := []), map[], s.events, height);
    MovedRegained(s, Undone(s, height).value.0, height);
  }

  lemma MovedRegained(s: State, t: State, height: nat)
    requires Moved(s.(events := []), t, s.events, height)
    ensures Regained(s, t, height)
  {
    hide QueueBag, Below, ContestedAbove, Tracked, InputLocktime, Outs;
    assert [] + Below(s.events, height) == Below(s.events, height);
  }

  lemma ReturnedIsInconsistent(s: State, t: State, u: State, height: nat)
    requires Consistent(s) && Undone(s, height).Some? && t == Undone(s, height).value.0
    requires Alike(t, u)
    requires !NoneReturns(s.claimable, s.events, height)
    ensures !Consistent(Erase(u, height))
  {
    hide Inv, Undo, QueueBag, Below, ContestedAbove, NoDup, Tracked, Accounted;
    UndoneRegained(s, height);
    var e :| e in s.events && Undoes(e, height) && SpentOut(e) in s.claimable
             && s.claimable[SpentOut(e)].1 <= height && InputLocktime(e.event.package.inputs[0].1) > height;
    NotBoth(Erase(u, height), SpentOut(e));
  }

  lemma NotBoth(s: State, o: OutPoint)
    requires o in QueueBag(s.locktimed) && o in s.claimable
    ensures !Inv(s)
  {
  }

  // ---- A reorganisation undoes spending ----

  datatype Block = Block(txs: seq<Tx>, confHeight: nat, hash: nat, curHeight: nat)

  function MatchedRun(s: State, blocks: seq<Block>, oracle: Oracle): Option<State>
    decreases blocks
  {
    if blocks == [] then Some(s)
    else match Matched(s, blocks[0].txs, blocks[0].confHeight, blocks[0].hash, blocks[0].curHeight, oracle)
      case None => None
      case Some(t) => MatchedRun(t, blocks[1..], oracle)
  }

  // The blocks lie above `height`, arrive in order without double spends, and no event matures.
  ghost predicate SpendsAbove(s: State, blocks: seq<Block>, height: nat, oracle: Oracle)
    decreases blocks
  {
    blocks == [] ||
    var b := blocks[0];
    && height < b.confHeight
    && CanMatch(s, b.txs, b.confHeight, b.curHeight)
    && var r := SpendTxs(s, map[], b.txs, b.confHeight, b.hash);
    && (r.Some? ==> forall e :: e in r.value.0.events ==> !HasMatured(e, b.curHeight))
    && var m := Matched(s, b.txs, b.confHeight, b.hash, b.curHeight, oracle);
    && (m.Some? ==> SpendsAbove(m.value, blocks[1..], height, oracle))
  }

  lemma MatchedSpends(s: State, b: Block, height: nat, oracle: Oracle)
    requires Consistent(s) && SpendsAbove(s, [b], height, oracle)
    ensures
      var m := Matched(s, b.txs, b.confHeight, b.hash, b.curHeight, oracle);
      m.Some? && Consistent(m.value) && Spending(s, m.value, height)
  {
    hide Inv, SpendTxs, NoRespend, EventsUpTo, NoDup, Mature, Rebump, Alike, Spending;
    MatchedKeepsConsistent(s, b.txs, b.confHeight, b.hash, b.curHeight, oracle);
    SpendTxsSpent(s, map[], b.txs, b.confHeight, b.hash, height);
    var (t, bumps) := SpendTxs(s, map[], b.txs, b.confHeight, b.hash).value;
    MatureNothing(t.(events := []), t.events, b.curHeight);
    assert [] + t.events == t.events;
    RebumpAlike(t, bumps, b.curHeight, oracle);
    AlikeSpent(t, Rebump(t, bumps, b.curHeight, oracle), b.confHeight, height);
    SpendingTrans(s, t, Rebump(t, bumps, b.curHeight, oracle), height);
  }

  lemma {:induction false} RunSpends(s: State, blocks: seq<Block>, height: nat, oracle: Oracle)
    requires Consistent(s) && SpendsAbove(s, blocks, height, oracle)
    ensures
      var r := MatchedRun(s, blocks, oracle);
      r.Some? && Consistent(r.value) && Spending(s, r.value, height)
    decreases blocks
  {
    hide Consistent, Spending, CanMatch, Matched, SpendTxs;
    if blocks == [] {
      SpendingNothing(s, height);
    } else {
      var b := blocks[0];
      MatchedSpends(s, b, height, oracle);
      var m := Matched(s, b.txs, b.confHeight, b.hash, b.curHeight, oracle).value;
      RunSpends(m, blocks[1..], height, oracle);
      SpendingTrans(s, m, MatchedRun(m, blocks[1..], oracle).value, height);
    }
  }

  lemma SpendingNothing(s: State, height: nat)
    ensures Spending(s, s, height)
  {
  }

  // `o` is being watched: a pending request or the timelock queue holds it.
  ghost predicate Watched(s: State, o: OutPoint) {
    Tracked(s.pending, s.claimable, o) || o in QueueBag(s.locktimed)
  }

  // `o` was not created above `height`.
  ghost predicate CreatedBy(s: State, o: OutPoint, height: nat) {
    o in s.claimable ==> s.claimable[o].1 <= height
  }

  lemma {:induction false} ContestedNothing(events: seq<Entry>, height: nat)
    requires EventsUpTo(events, height)
    ensures ContestedAbove(events, height) == {}
    decreases events
  {
    if events != [] {
      var n := |events| - 1;
      assert events[n] in events;
      ContestedNothing(events[..n], height);
    }
  }

  lemma {:induction false} BelowAll(events: seq<Entry>, height: nat)
    requires EventsUpTo(events, height)
    ensures Below(events, height) == events
    decreases events
  {
    if events != [] {
      var n := |events| - 1;
      assert events[n] in events;
      BelowAll(events[..n], height);
      assert events[..n] + [events[n]] == events;
    }
  }

  // `o` is watched, or was split off above `height`.
  ghost predicate Standing(s: State, o: OutPoint, height: nat) {
    Accounted(s.pending, s.claimable, QueueBag(s.locktimed), ContestedAbove(s.events, height), o)
  }

  lemma StandingIsWatched(s: State, height: nat)
    requires EventsUpTo(s.events, height)
    ensures forall o :: Standing(s, o, height) <==> Watched(s, o)
    ensures HighQueue(s.locktimed, height) ==> High(s, height)
  {
    hide QueueBag, HighQueue;
    ContestedNothing(s.events, height);
  }

  // Undoing gives back all that was split off.
  lemma RegainedWatches(m: State, t: State, height: nat)
    requires Regained(m, t, height) && High(m, height)
    ensures forall o :: Watched(t, o) <==> Standing(m, o, height)
  {
    hide QueueBag, HighQueue, Below;
    forall o ensures Watched(t, o) <==> Standing(m, o, height) {
      if o in ContestedAbove(m.events, height) {
        var e := ContestedBy(m.events, o, height);
        assert Undoes(e, height);
      }
    }
  }

  // After undoing, everything watched before the spends is watched again.
  lemma UndoneWatches(s: State, m: State, t: State, height: nat)
    requires EventsUpTo(s.events, height) && HighQueue(s.locktimed, height)
    requires Spending(s, m, height) && Regained(m, t, height)
    ensures forall o :: Watched(t, o) <==> Watched(s, o)
  {
    hide Watched, HighQueue, HighEvents, Ripe, Below, Regained, Accounted;
    StandingIsWatched(s, height);
    RegainedWatches(m, t, height);
    assert forall o :: Standing(s, o, height) <==> Standing(m, o, height);
  }

  lemma ErasedWatches(t: State, u: State, height: nat)
    requires Alike(t, u) && SameHeight(t.claimable)
    ensures var v := Erase(u, height);
            && v.claimable == Low(t.claimable, height)
            && v.events == u.events
            && v.locktimed == t.locktimed
            && (forall o :: CreatedBy(t, o, height) ==> (Watched(v, o) <==> Watched(t, o)))
  {
    hide QueueBag;
  }

  // Reorganisations undo spending. From a consistent tracker at height `height`, whose timelocked
  // packages ask for more than `height`: after any run of blocks above `height` in which no event
  // matures, disconnecting down to `height` panics exactly when some undone spend does not fit its
  // request any more, and otherwise restores events and links, and everything created at or below
  // `height` is watched exactly as it was.
  lemma ReorgUndoesSpending(s: State, blocks: seq<Block>, height: nat, oracle: Oracle)
    requires Consistent(s) && EventsUpTo(s.events, height) && HighQueue(s.locktimed, height)
    requires SpendsAbove(s, blocks, height, oracle)
    ensures
      var m := MatchedRun(s, blocks, oracle);
      && m.Some?
      && var v := Disconnect(m.value, height, oracle);
      && (v.Some? <==> AllFit(m.value.pending, m.value.claimable, m.value.events, height))
      && (v.Some? ==>
            && v.value.events == s.events
            && v.value.claimable == Low(s.claimable, height)
            && (forall o :: CreatedBy(s, o, height) ==> (Watched(v.value, o) <==> Watched(s, o))))
  {
    hide Inv, Undo, Restore, Erase, Spending, SpendsAbove, MatchedRun, Regained, Watched, Core, LowPlaces, NoneReturns,
      HighQueue, Ripe, NoDup, EventsUpTo, Below, Low, AllFit, Alike;
    RunSpends(s, blocks, height, oracle);
    var m := MatchedRun(s, blocks, oracle).value;
    SpendingParts(s, m, height);
    DisconnectPanicsExactlyWhen(m, height, oracle);
    if Disconnect(m, height, oracle).Some? {
      UndoneIs(m, height, oracle);
      UndoneRegained(m, height);
      var (t, bumps) := Undone(m, height).value;
      UndoneWatches(s, m, t, height);
      RegainedEvents(m, t, height);
      BelowAll(s.events, height);
      RestoreAlike(t, bumps, height, oracle);
      ConsistentHeights(m);
      ErasedWatches(t, Restore(t, bumps, height, oracle), height);
    }
  }

  // When every request's locktime was at most one block above `height`, all undone spends fit.
  lemma RipeDoesNotPanic(s: State, blocks: seq<Block>, height: nat, oracle: Oracle)
    requires Consistent(s) && Ripe(s, height + 1, height)
    requires SpendsAbove(s, blocks, height, oracle)
    ensures
      var m := MatchedRun(s, blocks, oracle);
      m.Some? && AllFit(m.value.pending, m.value.claimable, m.value.events, height)
  {
    hide Consistent, Spending, SpendsAbove, MatchedRun, Ripe, AllFit;
    RunSpends(s, blocks, height, oracle);
    var m := MatchedRun(s, blocks, oracle).value;
    SpendingRipe(s, m, height);
    RipeFits(m, height);
  }

  lemma RegainedEvents(m: State, t: State, height: nat)
    requires Regained(m, t, height)
    ensures t.events == Below(m.events, height)
  {
  }

  lemma SpendingParts(s: State, m: State, height: nat)
    requires Spending(s, m, height)
    ensures m.claimable == s.claimable && Below(m.events, height) == Below(s.events, height)
  {
  }

  lemma SpendingRipe(s: State, m: State, height: nat)
    requires Spending(s, m, height) && Ripe(s, height + 1, height)
    ensures Ripe(m, height + 1, height)
  {
  }

  lemma RipeFits(m: State, height: nat)
    requires Ripe(m, height + 1, height)
    ensures AllFit(m.pending, m.claimable, m.events, height)
  {
  }

  // When moreover no outpoint goes back to the queue while it stays linked, the tracker is consistent
  // again, each request created at or below `height` gets back exactly its own outpoints, and the queue
  // exactly the others. This is so when every request's locktime was reached at `height`.
  lemma ReorgRestoresRequests(s: State, blocks: seq<Block>, height: nat, oracle: Oracle)
    requires Consistent(s) && EventsUpTo(s.events, height) && HighQueue(s.locktimed, height)
    requires SpendsAbove(s, blocks, height, oracle)
    ensures MatchedRun(s, blocks, oracle).Some?
    ensures
      var m := MatchedRun(s, blocks, oracle).value;
      Ripe(s, height, height) ==>
        AllFit(m.pending, m.claimable, m.events, height) && NoneReturns(m.claimable, m.events, height)
    ensures
      var m := MatchedRun(s, blocks, oracle).value;
      AllFit(m.pending, m.claimable, m.events, height) && NoneReturns(m.claimable, m.events, height) ==>
        var v := Disconnect(m, height, oracle);
        v.Some? && Consistent(v.value) && SameRequestsBelow(s, v.value, height)
  {
    hide Inv, Undo, Disconnect, Spending, SpendsAbove, MatchedRun, Watched, NoneReturns, HighQueue, Ripe, NoDup,
      EventsUpTo, QueueBag, Low, AllFit, SameRequestsBelow;
    ReorgUndoesSpending(s, blocks, height, oracle);
    RunSpends(s, blocks, height, oracle);
    var m := MatchedRun(s, blocks, oracle).value;
    if Ripe(s, height, height) {
      RipeMore(s, height);
      RipeDoesNotPanic(s, blocks, height, oracle);
      RipeReturnsNone(s, m, height);
    }
    if AllFit(m.pending, m.claimable, m.events, height) && NoneReturns(m.claimable, m.events, height) {
      DisconnectKeepsConsistentExactlyWhen(m, height, oracle);
      WatchedAgrees(s, Disconnect(m, height, oracle).value, height);
    }
  }

  // The requests hold what they held, as far as it was created by `height`, and the queue the same.
  ghost predicate SameRequestsBelow(s: State, v: State, height: nat) {
    && (forall id, o :: id in v.pending && Holds(v.pending[id], o) ==> id in s.pending && Holds(s.pending[id], o))
    && (forall id, o :: id in s.pending && Holds(s.pending[id], o) && CreatedBy(s, o, height) ==>
          id in v.pending && Holds(v.pending[id], o))
    && (forall o :: o !in s.claimable ==> (o in QueueBag(v.locktimed) <==> o in QueueBag(s.locktimed)))
  }

  lemma RipeMore(s: State, height: nat)
    requires Ripe(s, height, height)
    ensures Ripe(s, height + 1, height)
  {
  }

  lemma RipeReturnsNone(s: State, m: State, height: nat)
    requires Spending(s, m, height) && Ripe(s, height, height)
    ensures NoneReturns(m.claimable, m.events, height)
  {
    assert Ripe(m, height, height);
  }

  // Consistent trackers with the same links that watch the same outpoints hold them in the same places.
  lemma WatchedAgrees(s: State, v: State, height: nat)
    requires Consistent(s) && Consistent(v) && v.claimable == Low(s.claimable, height)
    requires forall o :: CreatedBy(s, o, height) ==> (Watched(v, o) <==> Watched(s, o))
    ensures SameRequestsBelow(s, v, height)
  {
    hide QueueBag, Records, NoDup, FormedRequests, FormedQueue, Live, SameHeight, Owned, QueueApart, Contested, Holds,
      Watched;
    forall id, o | id in v.pending && Holds(v.pending[id], o) ensures id in s.pending && Holds(s.pending[id], o) {
      HeldIsWatched(v, id, o);
      WatchedIsHeld(s, o);
    }
    forall id, o | id in s.pending && Holds(s.pending[id], o) && CreatedBy(s, o, height)
      ensures id in v.pending && Holds(v.pending[id], o)
    {
      HeldIsWatched(s, id, o);
      WatchedIsHeld(v, o);
    }
    forall o | o !in s.claimable ensures o in QueueBag(v.locktimed) <==> o in QueueBag(s.locktimed) {
      UnlinkedIsQueued(s, o);
      UnlinkedIsQueued(v, o);
    }
  }

  lemma HeldIsWatched(s: State, id: ClaimId, o: OutPoint)
    requires Owned(s.pending, s.claimable, Contested(s.events)) && id in s.pending && Holds(s.pending[id], o)
    ensures Watched(s, o) && o in s.claimable && s.claimable[o].0 == id
  {
    hide QueueBag, ContestedAbove, Holds;
  }

  lemma WatchedIsHeld(s: State, o: OutPoint)
    requires QueueApart(QueueBag(s.locktimed), s.claimable, Contested(s.events)) && Watched(s, o) && o in s.claimable
    ensures s.claimable[o].0 in s.pending && Holds(s.pending[s.claimable[o].0], o)
  {
    hide QueueBag, ContestedAbove, Holds;
  }

  lemma UnlinkedIsQueued(s: State, o: OutPoint)
    requires o !in s.claimable
    ensures Watched(s, o) <==> o in QueueBag(s.locktimed)
  {
    hide QueueBag;
  }
}
