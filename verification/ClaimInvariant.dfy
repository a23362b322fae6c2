// The cross-map invariant of the claim tracker, and the elementary moves that keep it.
module ClaimInvariant {
  import opened Packages
  import opened ClaimState

  // ---- Where an outpoint can be ----

  function SpentOut(e: Entry): OutPoint
    requires e.event.Contentious?
  {
    e.event.package.inputs[0].0
  }

  // The outpoints split off by spends above `height` that have not matured.
  ghost function ContestedAbove(events: seq<Entry>, height: int): set<OutPoint> {
    if events == [] then {}
    else
      var e := events[|events| - 1];
      ContestedAbove(events[..|events| - 1], height)
      + (if e.event.Contentious? && e.height > height then {SpentOut(e)} else {})
  }

  ghost function Contested(events: seq<Entry>): set<OutPoint> {
    ContestedAbove(events, -1)
  }

  type Requests = map<ClaimId, Package>
  type Links = map<OutPoint, (ClaimId, nat)>

  // The outpoint is in the pending request that `claimable` names for it.
  ghost predicate Tracked(pending: Requests, claimable: Links, o: OutPoint) {
    o in claimable && claimable[o].0 in pending && Holds(pending[claimable[o].0], o)
  }

  ghost function GroupBag(ps: seq<Package>): multiset<OutPoint> {
    if ps == [] then multiset{} else Bag(ps[0].inputs) + GroupBag(ps[1..])
  }

  ghost function QueueBag(q: Queue): multiset<OutPoint> {
    if q == [] then multiset{} else GroupBag(q[0].1) + QueueBag(q[1..])
  }

  // ---- The invariant ----

  // Every claimable outpoint names a live request, and is in it or in an unmatured contentious event.
  ghost predicate Live(pending: Requests, claimable: Links, contested: set<OutPoint>) {
    forall o :: o in claimable ==>
      claimable[o].0 in pending && (Holds(pending[claimable[o].0], o) || o in contested)
  }

  // A request holds only outpoints that point back at it, and none that is contested.
  ghost predicate Owned(pending: Requests, claimable: Links, contested: set<OutPoint>) {
    forall id, o :: id in pending && Holds(pending[id], o) ==>
      o in claimable && claimable[o].0 == id && o !in contested
  }

  // A timelocked outpoint is nowhere else.
  ghost predicate QueueApart(queued: multiset<OutPoint>, claimable: Links, contested: set<OutPoint>) {
    forall o :: o in queued ==> o !in claimable && o !in contested && queued[o] == 1
  }

  // An outpoint is contested by one event only.
  ghost predicate OneSpend(events: seq<Entry>) {
    forall e, f :: (e in events && f in events && e.event.Contentious? && f.event.Contentious?
                    && SpentOut(e) == SpentOut(f)) ==> e == f
  }

  ghost predicate FormedRequests(pending: Requests) {
    forall id :: id in pending ==> WellFormed(pending[id])
  }

  ghost predicate FormedGroup(ps: seq<Package>) {
    forall p :: p in ps ==> WellFormed(p)
  }

  // Every input of a timelocked package asks for exactly the locktime the package is filed under.
  ghost predicate LevelInputs(inputs: Inputs, key: nat) {
    forall x :: x in inputs ==> InputLocktime(x.1) == key
  }

  ghost predicate LevelGroup(ps: seq<Package>, key: nat) {
    forall p :: p in ps ==> LevelInputs(p.inputs, key)
  }

  ghost predicate FormedQueue(q: Queue) {
    forall i :: 0 <= i < |q| ==> FormedGroup(q[i].1) && LevelGroup(q[i].1, q[i].0)
  }

  ghost predicate FormedEvents(events: seq<Entry>) {
    forall e :: e in events && e.event.Contentious? ==>
      WellFormed(e.event.package) && e.event.package.malleability.Malleable?
  }

  // A piece split off a request is still of the request's kind.
  ghost predicate Matching(pending: Requests, claimable: Links, events: seq<Entry>) {
    forall e :: (e in events && e.event.Contentious? && SpentOut(e) in claimable
                 && claimable[SpentOut(e)].0 in pending) ==>
        KindOf(pending[claimable[SpentOut(e)].0]) == KindOf(e.event.package)
  }

  // A request's confirmed claim is never older than a spend that split it.
  ghost predicate Ordered(claimable: Links, events: seq<Entry>) {
    forall e, f :: (e in events && f in events && e.event.Contentious? && SpentOut(e) in claimable
                    && f.event == Claimed(claimable[SpentOut(e)].0)) ==> e.height <= f.height
  }

  // All outpoints of a request were created at one height.
  ghost predicate SameHeight(claimable: Links) {
    forall o, p :: o in claimable && p in claimable && claimable[o].0 == claimable[p].0 ==>
      claimable[o].1 == claimable[p].1
  }

  ghost predicate Places(s: State) {
    && Live(s.pending, s.claimable, Contested(s.events))
    && Owned(s.pending, s.claimable, Contested(s.events))
    && QueueApart(QueueBag(s.locktimed), s.claimable, Contested(s.events))
    && SameHeight(s.claimable)
  }

  ghost predicate Records(s: State) {
    && OneSpend(s.events)
    && FormedEvents(s.events)
    && Matching(s.pending, s.claimable, s.events)
    && Ordered(s.claimable, s.events)
  }

  ghost predicate Inv(s: State) {
    Places(s) && Records(s) && FormedRequests(s.pending) && FormedQueue(s.locktimed)
  }

  // ---- Contested outpoints ----

  lemma ContestedPush(events: seq<Entry>, e: Entry, height: int)
    ensures ContestedAbove(events + [e], height) ==
            ContestedAbove(events, height) + (if e.event.Contentious? && e.height > height then {SpentOut(e)} else {})
  {
    assert (events + [e])[..|events|] == events;
  }

  lemma {:induction false} ContestedHas(events: seq<Entry>, e: Entry, height: int)
    requires e in events && e.event.Contentious? && e.height > height
    ensures SpentOut(e) in ContestedAbove(events, height)
  {
    var n := |events| - 1;
    if e != events[n] {
      ContestedHas(events[..n], e, height);
    }
  }

  lemma {:induction false} ContestedBy(events: seq<Entry>, o: OutPoint, height: int) returns (e: Entry)
    requires o in ContestedAbove(events, height)
    ensures e in events && e.event.Contentious? && SpentOut(e) == o && e.height > height
  {
    var n := |events| - 1;
    e := events[n];
    if !(e.event.Contentious? && SpentOut(e) == o && e.height > height) {
      e := ContestedBy(events[..n], o, height);
    }
  }

  lemma MembersContest(a: seq<Entry>, b: seq<Entry>, height: int)
    requires forall e :: e in a ==> e in b
    ensures ContestedAbove(a, height) <= ContestedAbove(b, height)
  {
    forall o | o in ContestedAbove(a, height) ensures o in ContestedAbove(b, height) {
      var e := ContestedBy(a, o, height);
      ContestedHas(b, e, height);
    }
  }

  // ---- What does not matter ----

  ghost predicate SameRequests(s: State, t: State) {
    && s.pending.Keys == t.pending.Keys
    && forall id :: id in s.pending ==>
         s.pending[id].inputs == t.pending[id].inputs && KindOf(s.pending[id]) == KindOf(t.pending[id])
  }

  // The same state up to the order and repetition of events, and up to timers and feerates.
  ghost predicate Alike(s: State, t: State) {
    && SameRequests(s, t)
    && (forall e :: e in s.events <==> e in t.events)
    && s.claimable == t.claimable
    && s.locktimed == t.locktimed
  }

  lemma AlikeKeepsInv(s: State, t: State)
    requires Alike(s, t) && Inv(s)
    ensures Inv(t)
  {
    hide Live, Owned, QueueApart, Records, SameHeight, SameRequests, FormedRequests, FormedQueue, QueueBag;
    AlikeContested(s, t);
    AlikeKeepsPlaces(s, t, Contested(s.events));
    AlikeKeepsRecords(s, t);
    AlikeKeepsFormed(s, t);
  }

  lemma AlikeContested(s: State, t: State)
    requires Alike(s, t)
    ensures Contested(s.events) == Contested(t.events)
  {
    MembersContest(s.events, t.events, -1);
    MembersContest(t.events, s.events, -1);
  }

  lemma AlikeKeepsFormed(s: State, t: State)
    requires SameRequests(s, t) && FormedRequests(s.pending)
    ensures FormedRequests(t.pending)
  {
    hide Uniform, Distinct, KindOf;
  }

  lemma AlikeKeepsPlaces(s: State, t: State, contested: set<OutPoint>)
    requires SameRequests(s, t) && s.claimable == t.claimable
    requires Live(s.pending, s.claimable, contested) && Owned(s.pending, s.claimable, contested)
    ensures Live(t.pending, t.claimable, contested) && Owned(t.pending, t.claimable, contested)
  {
  }

  lemma AlikeKeepsRecords(s: State, t: State)
    requires Alike(s, t) && Records(s)
    ensures Records(t)
  {
  }

  // ---- A claim transaction confirms ----

  lemma ConfirmedKeepsInv(s: State, e: Entry)
    requires Inv(s) && e.event.Claimed?
    requires forall f :: f in s.events ==> f.height <= e.height
    ensures Inv(s.(events := s.events + [e]))
  {
    hide Live, Owned, QueueApart, OneSpend, FormedEvents, Matching, Ordered, SameHeight;
    ContestedPush(s.events, e, -1);
    assert Contested(s.events) + {} == Contested(s.events);
    ConfirmedKeepsRecords(s, e);
  }

  lemma ConfirmedKeepsRecords(s: State, e: Entry)
    requires e.event.Claimed?
    requires forall f :: f in s.events ==> f.height <= e.height
    requires Records(s)
    ensures Records(s.(events := s.events + [e]))
  {
    assert forall f :: f in s.events + [e] <==> f in s.events || f == e;
  }

  // ---- One outpoint moves from its request to a contentious event ----

  ghost predicate CanMoveOut(s: State, id: ClaimId, o: OutPoint, e: Entry) {
    && id in s.pending
    && SplitPiece(s.pending[id], o).Some?
    && SplitRest(s.pending[id], o).inputs != []
    && e.event == Contentious(SplitPiece(s.pending[id], o).value)
    && forall f :: f in s.events && f.event == Claimed(id) ==> e.height <= f.height
  }

  function MovedOut(s: State, id: ClaimId, o: OutPoint, e: Entry): State
    requires id in s.pending
  {
    s.(pending := s.pending[id := SplitRest(s.pending[id], o)], events := s.events + [e])
  }

  lemma MovedOutKeepsInv(s: State, id: ClaimId, o: OutPoint, e: Entry)
    requires Inv(s) && CanMoveOut(s, id, o, e)
    ensures Inv(MovedOut(s, id, o, e))
  {
    hide Live, Owned, QueueApart, OneSpend, FormedEvents, Matching, Ordered, SameHeight;
    var p := s.pending[id];
    SplitTakesOne(p, o);
    SplitLeavesRest(p, o);
    SplitRestFormed(p, o);
    ContestedPush(s.events, e, -1);
    MovedOutPlaces(s, id, SplitRest(p, o), o);
    MovedOutRecords(s, id, o, e);
  }

  lemma MovedOutPlaces(s: State, id: ClaimId, rest: Package, o: OutPoint)
    requires id in s.pending && Holds(s.pending[id], o)
    requires Outs(rest.inputs) == Outs(s.pending[id].inputs) - {o}
    requires Places(s)
    ensures var pending, contested := s.pending[id := rest], Contested(s.events) + {o};
            && Live(pending, s.claimable, contested)
            && Owned(pending, s.claimable, contested)
            && QueueApart(QueueBag(s.locktimed), s.claimable, contested)
  {
    hide Live, Owned, Contested, QueueBag, SameHeight, Outs, QueueApart;
    MovedOutLive(s.pending, s.claimable, Contested(s.events), id, rest, o);
    LinkedApart(QueueBag(s.locktimed), s.claimable, Contested(s.events), o);
  }

  lemma MovedOutLive(pending: Requests, claimable: Links, contested: set<OutPoint>, id: ClaimId, rest: Package,
                     o: OutPoint)
    requires id in pending && Holds(pending[id], o) && Outs(rest.inputs) == Outs(pending[id].inputs) - {o}
    requires Live(pending, claimable, contested) && Owned(pending, claimable, contested)
    ensures o in claimable && claimable[o].0 == id
    ensures Live(pending[id := rest], claimable, contested + {o})
    ensures Owned(pending[id := rest], claimable, contested + {o})
  {
    hide Outs;
    assert o in claimable && claimable[o].0 == id;
    var after := pending[id := rest];
    forall i, x | i in after && Holds(after[i], x)
      ensures x in claimable && claimable[x].0 == i && x !in contested + {o}
    {
      assert Holds(pending[i], x);
    }
  }

  lemma LinkedApart(queued: multiset<OutPoint>, claimable: Links, contested: set<OutPoint>, o: OutPoint)
    requires QueueApart(queued, claimable, contested) && o in claimable
    ensures QueueApart(queued, claimable, contested + {o})
  {
  }

  lemma MovedOutRecords(s: State, id: ClaimId, o: OutPoint, e: Entry)
    requires CanMoveOut(s, id, o, e)
    requires SpentOut(e) == o && Holds(s.pending[id], o) && WellFormed(e.event.package)
    requires KindOf(SplitRest(s.pending[id], o)) == KindOf(s.pending[id]) == KindOf(e.event.package)
    requires Owned(s.pending, s.claimable, Contested(s.events)) && Records(s)
    ensures Records(MovedOut(s, id, o, e))
  {
    hide OneSpend, FormedEvents, Matching, Ordered, WellFormed;
    assert s.claimable[o].0 == id && o !in Contested(s.events);
    NewSpend(s.events, e);
    NewSpendMatching(s, SplitRest(s.pending[id], o), e);
    NewSpendOrdered(s.claimable, s.events, e);
  }

  lemma NewSpend(events: seq<Entry>, e: Entry)
    requires e.event.Contentious? && SpentOut(e) !in Contested(events)
    requires WellFormed(e.event.package) && e.event.package.malleability.Malleable?
    requires OneSpend(events) && FormedEvents(events)
    ensures OneSpend(events + [e]) && FormedEvents(events + [e])
  {
    forall f | f in events && f.event.Contentious? ensures SpentOut(f) != SpentOut(e) {
      ContestedHas(events, f, -1);
    }
  }

  lemma NewSpendMatching(s: State, rest: Package, e: Entry)
    requires e.event.Contentious? && SpentOut(e) in s.claimable
    requires Matching(s.pending, s.claimable, s.events)
    requires var id := s.claimable[SpentOut(e)].0;
             id in s.pending && KindOf(rest) == KindOf(s.pending[id]) == KindOf(e.event.package)
    ensures Matching(s.pending[s.claimable[SpentOut(e)].0 := rest], s.claimable, s.events + [e])
  {
  }

  lemma NewSpendOrdered(claimable: Links, events: seq<Entry>, e: Entry)
    requires e.event.Contentious? && Ordered(claimable, events)
    requires forall f :: f in events && SpentOut(e) in claimable && f.event == Claimed(claimable[SpentOut(e)].0) ==>
               e.height <= f.height
    ensures Ordered(claimable, events + [e])
  {
    assert forall f :: f in events + [e] <==> f in events || f == e;
  }
}
