// Undoing spends on a reorganisation: when it panics, when it keeps the invariant, and that it
// gives every outpoint back.
module ClaimReorg {
  import opened Common
  import opened Packages
  import opened ClaimState
  import opened ClaimInvariant
  import opened ClaimSpend
  import opened ClaimMature

  // ---- The conditions a caller can check before the call ----

  ghost predicate Undoes(e: Entry, height: nat) {
    e.event.Contentious? && e.height > height
  }

  // The request an undone outpoint merges back into has its own locktime reached.
  ghost predicate Fits(pending: Requests, claimable: Links, e: Entry, height: nat) {
    Undoes(e, height) && InputLocktime(e.event.package.inputs[0].1) <= height && SpentOut(e) in claimable
    && claimable[SpentOut(e)].0 in pending ==>
      PackageLocktime(pending[claimable[SpentOut(e)].0], 0) <= height + 1
  }

  ghost predicate AllFit(pending: Requests, claimable: Links, todo: seq<Entry>, height: nat) {
    forall e :: e in todo ==> Fits(pending, claimable, e, height)
  }

  // No undone outpoint that stays claimable goes back to the timelock queue.
  ghost predicate NoneReturns(claimable: Links, todo: seq<Entry>, height: nat) {
    forall e :: e in todo && Undoes(e, height) && SpentOut(e) in claimable && claimable[SpentOut(e)].1 <= height ==>
      InputLocktime(e.event.package.inputs[0].1) <= height
  }

  // ---- What holds while events are being undone ----

  ghost predicate Linked(pending: Requests, claimable: Links) {
    forall o :: o in claimable ==> claimable[o].0 in pending
  }

  ghost predicate Core(s: State) {
    && Linked(s.pending, s.claimable)
    && Owned(s.pending, s.claimable, Contested(s.events))
    && Records(s)
    && FormedRequests(s.pending)
    && FormedQueue(s.locktimed)
    && NoDup(s.events)
  }

  // The links that survive the reorganisation.
  ghost function Low(claimable: Links, height: nat): Links {
    map o | o in claimable && claimable[o].1 <= height :: claimable[o]
  }

  ghost predicate LowPlaces(s: State, height: nat) {
    && Live(s.pending, Low(s.claimable, height), Contested(s.events))
    && QueueApart(QueueBag(s.locktimed), Low(s.claimable, height), Contested(s.events))
  }

  lemma ConsistentIsCore(s: State, height: nat)
    requires Consistent(s)
    ensures Core(s) && LowPlaces(s, height)
  {
  }

  // ---- Event lists ----

  lemma {:induction false} ContestedConcat(a: seq<Entry>, b: seq<Entry>, height: int)
    ensures ContestedAbove(a + b, height) == ContestedAbove(a, height) + ContestedAbove(b, height)
  {
    if b == [] {
      assert a + b == a;
    } else {
      var n := |b| - 1;
      assert (a + b)[..|a| + n] == a + b[..n];
      ContestedConcat(a, b[..n], height);
    }
  }

  lemma ContestedOne(e: Entry, height: int)
    ensures ContestedAbove([e], height) == if e.event.Contentious? && e.height > height then {SpentOut(e)} else {}
  {
    ContestedPush([], e, height);
    assert [] + [e] == [e];
  }

  // Taking one contentious event out of the list stops its outpoint from being contested, and only it.
  lemma ContestedDrop(a: seq<Entry>, e: Entry, b: seq<Entry>, height: int)
    requires OneSpend(a + [e] + b) && NoDup(a + [e] + b)
    ensures e.event.Contentious? ==> SpentOut(e) !in ContestedAbove(a + b, height)
    ensures ContestedAbove(a + [e] + b, height) ==
            ContestedAbove(a + b, height) + ContestedAbove([e], height)
  {
    ContestedConcat(a + [e], b, height);
    ContestedConcat(a, [e], height);
    ContestedConcat(a, b, height);
    var all := a + [e] + b;
    assert all[|a|] == e;
    if e.event.Contentious? && SpentOut(e) in ContestedAbove(a + b, height) {
      var f := ContestedBy(a + b, SpentOut(e), height);
      assert f == e by { assert f in all; }
      NotAgain(a, e, b);
      assert false;
    }
  }

  lemma NotAgain<T>(a: seq<T>, e: T, b: seq<T>)
    requires NoDup(a + [e] + b)
    ensures e !in a + b
  {
    var all := a + [e] + b;
    assert all[|a|] == e;
    forall i | 0 <= i < |a + b| ensures (a + b)[i] != e {
      assert (a + b)[i] == all[if i < |a| then i else i + 1];
    }
  }

  lemma DropRecords(s: State, a: seq<Entry>, e: Entry, b: seq<Entry>)
    requires s.events == a + [e] + b && Records(s)
    ensures Records(s.(events := a + b))
  {
    MatureRecords(s, s.(events := a + b));
  }

  lemma DropNoDup(a: seq<Entry>, e: Entry, b: seq<Entry>)
    requires NoDup(a + [e] + b)
    ensures NoDup(a + b)
  {
    var all := a + [e] + b;
    forall i, j | 0 <= i < j < |a + b| ensures (a + b)[i] != (a + b)[j] {
      var i', j' := if i < |a| then i else i + 1, if j < |a| then j else j + 1;
      assert all[i'] == (a + b)[i] && all[j'] == (a + b)[j];
    }
  }

  // ---- Merging back ----

  lemma LocktimesAgree(request: Package, p: Piece, height: nat)
    requires WellFormed(request) && WellFormed(p) && KindOf(request) == KindOf(p)
    requires p.malleability.Malleable? && InputLocktime(p.inputs[0].1) <= height
    ensures Merge(request, p, height + 1).Some? <==> PackageLocktime(request, 0) <= height + 1
  {
    MergeOfKind(request, p, height + 1);
    SignedOfAgreed(request.inputs);
    SignedOfAgreed(p.inputs);
    PieceLocktime(p, height + 1);
  }

  lemma MergedBack(request: Package, p: Piece, height: nat)
    requires WellFormed(request) && WellFormed(p) && KindOf(request) == KindOf(p)
    requires p.malleability.Malleable? && InputLocktime(p.inputs[0].1) <= height
    requires Merge(request, p, height + 1).Some? && !Holds(request, p.inputs[0].0)
    ensures
      var m := Merge(request, p, height + 1).value;
      && WellFormed(m) && KindOf(m) == KindOf(request)
      && Outs(m.inputs) == Outs(request.inputs) + {p.inputs[0].0}
      && PackageLocktime(m, 0) <= height + 1
  {
    var m := Merge(request, p, height + 1).value;
    OutsConcat(request.inputs, p.inputs);
    assert Outs(p.inputs[1..]) == {};
    MergedFormed(request, p, height);
    LocktimesAgree(request, p, height);
    SignedOfAgreed(request.inputs);
    SignedOfAgreed(m.inputs);
    GreatestMinimumConcat(request.inputs, p.inputs);
    SignedOfAgreed(p.inputs);
    PieceLocktime(p, height + 1);
    assert p.inputs[1..] == [] && GreatestMinimum([]) == 0;
  }

  lemma MergedFormed(request: Package, p: Piece, height: nat)
    requires WellFormed(request) && WellFormed(p) && KindOf(request) == KindOf(p)
    requires !Holds(request, p.inputs[0].0)
    ensures Uniform(request.inputs + p.inputs) && Distinct(request.inputs + p.inputs)
  {
    assert request.inputs[0] in request.inputs && p.inputs[0] in p.inputs;
    BagConcat(request.inputs, p.inputs);
    BagOuts(request.inputs);
    assert Outpoints(p.inputs) == [p.inputs[0].0];
  }

  // ---- One event ----

  // Every event after this one gets the same answer before and after it is undone.
  lemma UndoOneMerges(s: State, bumps: map<ClaimId, Package>, e: Entry, rest: seq<Entry>, height: nat)
    requires Core(s.(events := s.events + [e] + rest))
    ensures UndoOne(s, bumps, e, height).Some? <==> Fits(s.pending, s.claimable, e, height)
    ensures UndoOne(s, bumps, e, height).Some? ==>
              (AllFit(UndoOne(s, bumps, e, height).value.0.pending, s.claimable, rest, height)
               <==> AllFit(s.pending, s.claimable, rest, height))
  {
    hide Owned, OneSpend, Ordered, FormedQueue, NoDup, WellFormed, KindOf, Merge, PackageLocktime;
    if Undoes(e, height) {
      var p := e.event.package;
      assert e in s.events + [e] + rest;
      PieceLocktime(p, 0);
      if InputLocktime(p.inputs[0].1) <= height && SpentOut(e) in s.claimable {
        var id := s.claimable[SpentOut(e)].0;
        LocktimesAgree(s.pending[id], p, height);
        if UndoOne(s, bumps, e, height).Some? {
          UndoneNotHeld(s, e, rest);
          MergedBack(s.pending[id], p, height);
        }
      }
    }
  }

  lemma UndoneNotHeld(s: State, e: Entry, rest: seq<Entry>)
    requires Owned(s.pending, s.claimable, Contested(s.events + [e] + rest)) && e.event.Contentious?
    ensures forall id :: id in s.pending ==> !Holds(s.pending[id], SpentOut(e))
  {
    assert (s.events + [e] + rest)[|s.events|] == e;
    ContestedHas(s.events + [e] + rest, e, -1);
  }

  lemma {:induction false} EnqueueBag(q: Queue, key: nat, p: Package)
    ensures QueueBag(Enqueue(q, key, p)) == QueueBag(q) + Bag(p.inputs)
  {
    if q == [] || key < q[0].0 {
      assert ([(key, [p])] + q)[1..] == q;
      assert GroupBag([p]) == Bag(p.inputs) + GroupBag([]);
    } else if key == q[0].0 {
      assert ([(key, q[0].1 + [p])] + q[1..])[1..] == q[1..];
      GroupBagPush(q[0].1, p);
    } else {
      EnqueueBag(q[1..], key, p);
      assert ([q[0]] + Enqueue(q[1..], key, p))[1..] == Enqueue(q[1..], key, p);
    }
  }

  lemma {:induction false} GroupBagPush(ps: seq<Package>, p: Package)
    ensures GroupBag(ps + [p]) == GroupBag(ps) + Bag(p.inputs)
  {
    if ps == [] {
      assert [] + [p] == [p];
      assert GroupBag([p]) == Bag(p.inputs) + GroupBag([]);
    } else {
      assert (ps + [p])[0] == ps[0] && (ps + [p])[1..] == ps[1..] + [p];
      GroupBagPush(ps[1..], p);
    }
  }

  lemma {:induction false} EnqueueFormed(q: Queue, key: nat, p: Package)
    requires FormedQueue(q) && WellFormed(p) && LevelInputs(p.inputs, key)
    ensures FormedQueue(Enqueue(q, key, p))
  {
    if q != [] && key >= q[0].0 {
      assert FormedGroup(q[0].1) && LevelGroup(q[0].1, q[0].0);
      if key > q[0].0 {
        assert FormedQueue(q[1..]);
        EnqueueFormed(q[1..], key, p);
      }
    }
  }

  // What one undone event turns the state into, with the events still to be looked at.
  ghost function After(s: State, bumps: map<ClaimId, Package>, e: Entry, rest: seq<Entry>, height: nat): State
    requires UndoOne(s, bumps, e, height).Some?
  {
    var t := UndoOne(s, bumps, e, height).value.0;
    t.(events := t.events + rest)
  }

  lemma UndoOneCore(s: State, bumps: map<ClaimId, Package>, e: Entry, rest: seq<Entry>, height: nat)
    requires Core(s.(events := s.events + [e] + rest)) && UndoOne(s, bumps, e, height).Some?
    ensures Core(After(s, bumps, e, rest, height))
  {
    hide Owned, OneSpend, Ordered, Matching, FormedEvents, FormedQueue, NoDup, WellFormed, KindOf, Merge,
      PackageLocktime;
    if e.height > height {
      var all := s.events + [e] + rest;
      ContestedDrop(s.events, e, rest, -1);
      OwnedLess(s.pending, s.claimable, Contested(all), Contested(s.events + rest));
      DropRecords(s.(events := all), s.events, e, rest);
      DropNoDup(s.events, e, rest);
      if e.event.Contentious? {
        var p := e.event.package;
        PieceLocktime(p, 0);
        FormedEntry(all, s.events, e, rest);
        if InputLocktime(p.inputs[0].1) > height {
          EnqueueFormed(s.locktimed, PackageLocktime(p, 0), p);
        } else if SpentOut(e) in s.claimable {
          MergedBackCore(s, bumps, e, rest, height);
        }
      }
    }
  }

  lemma FormedEntry(all: seq<Entry>, a: seq<Entry>, e: Entry, b: seq<Entry>)
    requires FormedEvents(all) && all == a + [e] + b && e.event.Contentious?
    ensures WellFormed(e.event.package) && e.event.package.malleability.Malleable?
  {
    assert all[|a|] == e;
  }

  lemma OwnedLess(pending: Requests, claimable: Links, more: set<OutPoint>, less: set<OutPoint>)
    requires Owned(pending, claimable, more) && less <= more
    ensures Owned(pending, claimable, less)
  {
  }

  lemma MergedBackCore(s: State, bumps: map<ClaimId, Package>, e: Entry, rest: seq<Entry>, height: nat)
    requires Core(s.(events := s.events + [e] + rest)) && UndoOne(s, bumps, e, height).Some?
    requires Records(s.(events := s.events + rest)) && NoDup(s.events + rest)
    requires e.event.Contentious? && e.height > height && SpentOut(e) in s.claimable
    requires InputLocktime(e.event.package.inputs[0].1) <= height
    requires SpentOut(e) !in Contested(s.events + rest)
    requires Owned(s.pending, s.claimable, Contested(s.events + rest))
    ensures Core(After(s, bumps, e, rest, height))
  {
    hide OneSpend, Ordered, FormedEvents, FormedQueue, NoDup, WellFormed, KindOf, Merge, PackageLocktime, Contested,
      Owned, Outs;
    var p := e.event.package;
    var id := s.claimable[SpentOut(e)].0;
    PieceLocktime(p, 0);
    FormedEntry(s.events + [e] + rest, s.events, e, rest);
    assert (s.events + [e] + rest)[|s.events|] == e;
    assert KindOf(s.pending[id]) == KindOf(p);
    UndoneNotHeld(s, e, rest);
    MergedBack(s.pending[id], p, height);
    var m := Merge(s.pending[id], p, height + 1).value;
    assert After(s, bumps, e, rest, height) == s.(pending := s.pending[id := m], events := s.events + rest);
    MergedOwned(s.pending, s.claimable, Contested(s.events + rest), id, m, SpentOut(e));
    MergedMatching(s.pending, s.claimable, s.events + rest, id, m);
  }

  lemma MergedOwned(pending: Requests, claimable: Links, contested: set<OutPoint>, id: ClaimId, m: Package, o: OutPoint)
    requires Owned(pending, claimable, contested) && id in pending && Outs(m.inputs) == Outs(pending[id].inputs) + {o}
    requires o in claimable && claimable[o].0 == id && o !in contested
    ensures Owned(pending[id := m], claimable, contested)
  {
    hide Outs;
  }

  lemma MergedMatching(pending: Requests, claimable: Links, events: seq<Entry>, id: ClaimId, m: Package)
    requires Matching(pending, claimable, events) && id in pending && KindOf(m) == KindOf(pending[id])
    ensures Matching(pending[id := m], claimable, events)
  {
    hide KindOf;
  }

  // ---- Where the undone outpoint goes ----

  lemma UndoOnePlaces(s: State, bumps: map<ClaimId, Package>, e: Entry, rest: seq<Entry>, height: nat)
    requires Core(s.(events := s.events + [e] + rest)) && UndoOne(s, bumps, e, height).Some?
    requires LowPlaces(s.(events := s.events + [e] + rest), height)
    requires NoneReturns(s.claimable, [e], height)
    ensures LowPlaces(After(s, bumps, e, rest, height), height)
  {
    hide Owned, Records, NoDup, WellFormed, KindOf, FormedQueue, FormedRequests, PackageLocktime, Contested,
      QueueBag, Live, QueueApart;
    if e.height > height {
      var all := s.events + [e] + rest;
      DropContested(s, e, rest);
      var low, contested := Low(s.claimable, height), Contested(s.events + rest);
      if e.event.Contentious? {
        var p, o := e.event.package, SpentOut(e);
        assert e in [e];
        PieceLocktime(p, 0);
        if InputLocktime(p.inputs[0].1) > height {
          EnqueueBag(s.locktimed, PackageLocktime(p, 0), p);
          assert Outpoints(p.inputs) == [o];
          ReturnedPlaces(s.pending, low, QueueBag(s.locktimed), contested, o);
        } else if o in s.claimable {
          var id := s.claimable[o].0;
          OutsConcat(s.pending[id].inputs, p.inputs);
          assert Outs(p.inputs[1..]) == {};
          var m := Merge(s.pending[id], p, height + 1).value;
          MergedPlaces(s.pending, low, QueueBag(s.locktimed), contested, id, m, o);
        } else {
          DroppedPlaces(s.pending, low, QueueBag(s.locktimed), contested, o);
        }
      } else {
        assert Contested(all) == contested;
      }
    }
  }

  lemma DropContested(s: State, e: Entry, rest: seq<Entry>)
    requires Core(s.(events := s.events + [e] + rest))
    ensures Contested(s.events + [e] + rest) ==
            Contested(s.events + rest) + (if e.event.Contentious? then {SpentOut(e)} else {})
    ensures e.event.Contentious? ==> SpentOut(e) !in Contested(s.events + rest)
  {
    hide Owned, Matching, Ordered, FormedEvents, WellFormed, FormedQueue, FormedRequests;
    ContestedDrop(s.events, e, rest, -1);
    ContestedOne(e, -1);
  }

  lemma ReturnedPlaces(pending: Requests, low: Links, queued: multiset<OutPoint>, contested: set<OutPoint>, o: OutPoint)
    requires Live(pending, low, contested + {o}) && QueueApart(queued, low, contested + {o})
    requires o !in low && o !in contested
    ensures Live(pending, low, contested) && QueueApart(queued + multiset{o}, low, contested)
  {
  }

  lemma MergedPlaces(pending: Requests, low: Links, queued: multiset<OutPoint>, contested: set<OutPoint>,
                     id: ClaimId, m: Package, o: OutPoint)
    requires Live(pending, low, contested + {o}) && QueueApart(queued, low, contested + {o})
    requires id in pending && (o in low ==> low[o].0 == id)
    requires Outs(m.inputs) == Outs(pending[id].inputs) + {o}
    ensures Live(pending[id := m], low, contested) && QueueApart(queued, low, contested)
  {
  }

  lemma DroppedPlaces(pending: Requests, low: Links, queued: multiset<OutPoint>, contested: set<OutPoint>, o: OutPoint)
    requires Live(pending, low, contested + {o}) && QueueApart(queued, low, contested + {o})
    requires o !in low
    ensures Live(pending, low, contested) && QueueApart(queued, low, contested)
  {
  }

  // Requests and the queue only gain outpoints while events are undone.
  ghost predicate Gains(s: State, t: State) {
    && t.claimable == s.claimable
    && t.pending.Keys == s.pending.Keys
    && (forall id :: id in s.pending ==> Outs(s.pending[id].inputs) <= Outs(t.pending[id].inputs))
    && (forall o :: o in QueueBag(s.locktimed) ==> o in QueueBag(t.locktimed))
  }

  // Undoing an event puts its outpoint into its own request, or back into the queue, and changes
  // nothing else.
  lemma UndoOneMoves(s: State, bumps: map<ClaimId, Package>, e: Entry, height: nat)
    requires UndoOne(s, bumps, e, height).Some? && Linked(s.pending, s.claimable)
    ensures
      var t := UndoOne(s, bumps, e, height).value.0;
      && Gains(s, t)
      && t.events == s.events + Below([e], height)
      && (Undoes(e, height) ==>
            if InputLocktime(e.event.package.inputs[0].1) > height then SpentOut(e) in QueueBag(t.locktimed)
            else SpentOut(e) in s.claimable ==> Tracked(t.pending, t.claimable, SpentOut(e)))
      && (forall o :: Tracked(t.pending, t.claimable, o) || o in QueueBag(t.locktimed) ==>
            Tracked(s.pending, s.claimable, o) || o in QueueBag(s.locktimed)
            || (Undoes(e, height) && o == SpentOut(e)))
  {
    hide PackageLocktime, QueueBag, Below, Enqueue, Merge, Outs, Tracked, Gains;
    BelowOne(e, height);
    assert s.events + [] == s.events;
    GainsNothing(s, UndoOne(s, bumps, e, height).value.0);
    if Undoes(e, height) {
      var p, o := e.event.package, SpentOut(e);
      PieceLocktime(p, 0);
      if InputLocktime(p.inputs[0].1) > height {
        ReturnedMoves(s, p, PackageLocktime(p, 0));
      } else if o in s.claimable {
        var id := s.claimable[o].0;
        var m := Merge(s.pending[id], p, height + 1).value;
        MergedOuts(s.pending[id], p, height + 1);
        MergedMoves(s, id, m, o);
      }
    }
  }

  lemma BelowOne(e: Entry, height: int)
    ensures Below([e], height) == if e.height <= height then [e] else []
  {
    assert [e][..0] == [];
  }

  lemma GainsNothing(s: State, t: State)
    requires t.claimable == s.claimable
    ensures t.pending == s.pending && t.locktimed == s.locktimed ==> Gains(s, t)
  {
    hide QueueBag, Outs;
  }

  lemma ReturnedMoves(s: State, p: Piece, key: nat)
    ensures
      var t := s.(locktimed := Enqueue(s.locktimed, key, p));
      && Gains(s, t) && p.inputs[0].0 in QueueBag(t.locktimed)
      && forall o :: o in QueueBag(t.locktimed) ==> o in QueueBag(s.locktimed) || o == p.inputs[0].0
  {
    hide QueueBag, Enqueue, Outs;
    EnqueueBag(s.locktimed, key, p);
    assert Outpoints(p.inputs) == [p.inputs[0].0];
  }

  lemma MergedOuts(request: Package, p: Piece, height: nat)
    requires Merge(request, p, height).Some?
    ensures Outs(Merge(request, p, height).value.inputs) == Outs(request.inputs) + {p.inputs[0].0}
  {
    OutsConcat(request.inputs, p.inputs);
    assert Outs(p.inputs[1..]) == {};
  }

  lemma MergedMoves(s: State, id: ClaimId, m: Package, o: OutPoint)
    requires id in s.pending && o in s.claimable && s.claimable[o].0 == id
    requires Outs(m.inputs) == Outs(s.pending[id].inputs) + {o}
    ensures
      var t := s.(pending := s.pending[id := m]);
      && Gains(s, t) && Tracked(t.pending, t.claimable, o)
      && forall x :: Tracked(t.pending, t.claimable, x) ==> Tracked(s.pending, s.claimable, x) || x == o
  {
    hide QueueBag, Outs;
  }

  // ---- All events ----

  ghost function WithTodo(s: State, todo: seq<Entry>): State {
    s.(events := s.events + todo)
  }

  lemma {:induction false} UndoMerges(s: State, bumps: map<ClaimId, Package>, todo: seq<Entry>, height: nat)
    requires Core(WithTodo(s, todo))
    ensures Undo(s, bumps, todo, height).Some? <==> AllFit(s.pending, s.claimable, todo, height)
    decreases todo
  {
    hide Core, Fits, UndoOne;
    if todo != [] {
      var e, rest := todo[0], todo[1..];
      assert forall f :: f in todo <==> f == e || f in rest;
      assert s.events + todo == s.events + [e] + rest;
      UndoOneMerges(s, bumps, e, rest, height);
      if UndoOne(s, bumps, e, height).Some? {
        UndoOneCore(s, bumps, e, rest, height);
        UndoOneLinks(s, bumps, e, height);
        var r := UndoOne(s, bumps, e, height).value;
        UndoMerges(r.0, r.1, rest, height);
      }
    }
  }

  lemma UndoOneLinks(s: State, bumps: map<ClaimId, Package>, e: Entry, height: nat)
    ensures UndoOne(s, bumps, e, height).Some? ==> UndoOne(s, bumps, e, height).value.0.claimable == s.claimable
  {
  }

  lemma {:induction false} UndoKeeps(s: State, bumps: map<ClaimId, Package>, todo: seq<Entry>, height: nat)
    requires Core(WithTodo(s, todo)) && Undo(s, bumps, todo, height).Some?
    ensures Core(Undo(s, bumps, todo, height).value.0)
    ensures LowPlaces(WithTodo(s, todo), height) && NoneReturns(s.claimable, todo, height) ==>
              LowPlaces(Undo(s, bumps, todo, height).value.0, height)
    decreases todo
  {
    hide Core, LowPlaces, UndoOne;
    if todo == [] {
      assert WithTodo(s, todo) == s;
    } else {
      var e, rest := todo[0], todo[1..];
      assert s.events + todo == s.events + [e] + rest;
      UndoOneCore(s, bumps, e, rest, height);
      UndoOneLinks(s, bumps, e, height);
      if LowPlaces(WithTodo(s, todo), height) && NoneReturns(s.claimable, todo, height) {
        UndoOnePlaces(s, bumps, e, rest, height);
      }
      var r := UndoOne(s, bumps, e, height).value;
      UndoKeeps(r.0, r.1, rest, height);
    }
  }

  // The bump candidates are the requests as they ended up.
  ghost predicate Current(pending: Requests, bumps: map<ClaimId, Package>) {
    forall id :: id in bumps ==> id in pending && pending[id] == bumps[id]
  }

  // From `s` to `t` the events `todo` were undone: requests and the queue gained exactly their outpoints,
  // each in the place its locktime calls for.
  ghost predicate Moved(s: State, t: State, todo: seq<Entry>, height: nat) {
    && Gains(s, t)
    && t.events == s.events + Below(todo, height)
    && (forall e :: e in todo && Undoes(e, height) ==>
          if InputLocktime(e.event.package.inputs[0].1) > height then SpentOut(e) in QueueBag(t.locktimed)
          else SpentOut(e) in s.claimable ==> Tracked(t.pending, t.claimable, SpentOut(e)))
    && (forall o :: Tracked(t.pending, t.claimable, o) || o in QueueBag(t.locktimed) ==>
          Tracked(s.pending, s.claimable, o) || o in QueueBag(s.locktimed) || o in ContestedAbove(todo, height))
  }

  lemma MovedNothing(s: State, height: nat)
    ensures Moved(s, s, [], height)
  {
    hide QueueBag;
    BelowNothing([], height);
    assert s.events + [] == s.events;
  }

  lemma MovedOne(s: State, bumps: map<ClaimId, Package>, e: Entry, height: nat)
    requires UndoOne(s, bumps, e, height).Some? && Linked(s.pending, s.claimable)
    ensures Moved(s, UndoOne(s, bumps, e, height).value.0, [e], height)
  {
    hide QueueBag, UndoOne, Gains, Tracked, Below, InputLocktime, Linked, ContestedAbove;
    UndoOneMoves(s, bumps, e, height);
    ContestedOne(e, height);
  }

  lemma MovedMore(s: State, t: State, u: State, e: Entry, rest: seq<Entry>, height: nat)
    requires Moved(s, t, [e], height) && Moved(t, u, rest, height)
    ensures Moved(s, u, [e] + rest, height)
  {
    hide QueueBag, Below, ContestedAbove, InputLocktime, Outs;
    BelowConcat([e], rest, height);
    ContestedConcat([e], rest, height);
  }

  lemma {:induction false} UndoMoves(s: State, bumps: map<ClaimId, Package>, todo: seq<Entry>, height: nat)
    requires Undo(s, bumps, todo, height).Some?
    requires Linked(s.pending, s.claimable) && Current(s.pending, bumps)
    ensures
      var (t, more) := Undo(s, bumps, todo, height).value;
      Moved(s, t, todo, height) && Current(t.pending, more)
    decreases todo
  {
    hide UndoOne, Moved, Linked, Current;
    if todo == [] {
      MovedNothing(s, height);
    } else {
      var e, rest := todo[0], todo[1..];
      assert todo == [e] + rest;
      MovedOne(s, bumps, e, height);
      UndoOneCurrent(s, bumps, e, height);
      var r := UndoOne(s, bumps, e, height).value;
      MovedLinked(s, r.0, [e], height);
      UndoMoves(r.0, r.1, rest, height);
      MovedMore(s, r.0, Undo(r.0, r.1, rest, height).value.0, e, rest, height);
    }
  }

  lemma MovedLinked(s: State, t: State, todo: seq<Entry>, height: nat)
    requires Moved(s, t, todo, height) && Linked(s.pending, s.claimable)
    ensures Linked(t.pending, t.claimable)
  {
    hide QueueBag, Below, Tracked, ContestedAbove, Outs;
  }

  lemma UndoOneCurrent(s: State, bumps: map<ClaimId, Package>, e: Entry, height: nat)
    requires UndoOne(s, bumps, e, height).Some? && Current(s.pending, bumps)
    ensures var r := UndoOne(s, bumps, e, height).value; Current(r.0.pending, r.1)
  {
  }
}
