// Whole runs of the claim tracker, and the inputs on which it does not meet its promises.
module ClaimRuns {
  import opened Common
  import opened Packages
  import opened ClaimState
  import opened ClaimInvariant
  import opened ClaimMature
  import opened ClaimReorg
  import opened ClaimTheorems
  import opened ClaimRegister

  // ---- Abandoning a claim ----

  lemma {:induction false} DropHoldingIs(ps: seq<Package>, o: OutPoint)
    ensures GroupBag(DropHolding(ps, o)) <= GroupBag(ps)
    ensures forall p :: p in DropHolding(ps, o) ==> p in ps
  {
    if ps != [] {
      DropHoldingIs(ps[1..], o);
      if !Holds(ps[0], o) {
        assert DropHolding(ps, o)[1..] == DropHolding(ps[1..], o);
      } else {
        assert DropHolding(ps, o) == DropHolding(ps[1..], o);
      }
    }
  }

  lemma {:induction false} DropFromQueueIs(q: Queue, o: OutPoint)
    requires FormedQueue(q)
    ensures QueueBag(DropFromQueue(q, o)) <= QueueBag(q)
    ensures FormedQueue(DropFromQueue(q, o))
  {
    if q != [] {
      DropFromQueueIs(q[1..], o);
      DropHoldingIs(q[0].1, o);
      var t := DropFromQueue(q, o);
      assert t[1..] == DropFromQueue(q[1..], o);
      assert FormedGroup(q[0].1) && LevelGroup(q[0].1, q[0].0);
    }
  }

  lemma SmallerQueue(s: State, queue: Queue)
    requires Consistent(s) && FormedQueue(queue) && QueueBag(queue) <= QueueBag(s.locktimed)
    ensures Consistent(s.(locktimed := queue))
  {
    hide Live, Owned, Matching, Ordered, OneSpend, FormedEvents, FormedRequests, SameHeight, NoDup, QueueBag,
      FormedQueue;
    forall o | o in QueueBag(queue) ensures QueueBag(queue)[o] == 1 && o in QueueBag(s.locktimed) {
      assert QueueBag(queue)[o] <= QueueBag(s.locktimed)[o];
    }
  }

  // The request holds every outpoint that is linked to it: none was split off.
  ghost predicate Whole(s: State, id: ClaimId) {
    id in s.pending && forall o :: o in s.claimable && s.claimable[o].0 == id ==> Holds(s.pending[id], o)
  }

  // Abandoning a claim keeps the tracker consistent exactly when no outpoint is split off the
  // abandoned request; otherwise that outpoint is left naming a dead request.
  lemma AbandonKeepsConsistentExactlyWhen(s: State, o: OutPoint, found: Option<ClaimId>)
    requires Consistent(s) && FindsClaim(s, o, found)
    ensures Consistent(Abandon(s, o, found)) <==> found.None? || Whole(s, found.value)
  {
    hide Inv, WellFormed, NoDup, FormedQueue, QueueBag, Contested, Outs;
    match found
    case None =>
      InvQueue(s);
      DropFromQueueIs(s.locktimed, o);
      SmallerQueue(s, DropFromQueue(s.locktimed, o));
    case Some(id) =>
      FoundIsPending(s, o, id);
      OutsAreIndices(s.pending[id].inputs);
      if Whole(s, id) {
        AbandonWhole(s, id);
      } else {
        AbandonSplit(s, id);
      }
  }

  lemma FoundIsPending(s: State, o: OutPoint, id: ClaimId)
    requires Consistent(s) && FindsClaim(s, o, Some(id))
    ensures id in s.pending
  {
  }

  ghost function Abandoned(s: State, id: ClaimId): State
    requires id in s.pending
  {
    s.(pending := s.pending - {id}, claimable := s.claimable - Outs(s.pending[id].inputs))
  }

  lemma AbandonWhole(s: State, id: ClaimId)
    requires Consistent(s) && Whole(s, id)
    ensures Consistent(Abandoned(s, id))
  {
    hide Matching, Ordered, OneSpend, FormedEvents, WellFormed, NoDup, FormedQueue, QueueBag, Contested, Outs,
      QueueApart, Live, Owned;
    var t := Abandoned(s, id);
    AbandonedPlaces(s, id, Contested(s.events));
    MatureRecords(s, t);
  }

  lemma AbandonedPlaces(s: State, id: ClaimId, contested: set<OutPoint>)
    requires Whole(s, id)
    requires Live(s.pending, s.claimable, contested) && Owned(s.pending, s.claimable, contested)
    requires QueueApart(QueueBag(s.locktimed), s.claimable, contested)
    ensures
      var t := Abandoned(s, id);
      && Live(t.pending, t.claimable, contested) && Owned(t.pending, t.claimable, contested)
      && QueueApart(QueueBag(t.locktimed), t.claimable, contested)
  {
    hide QueueBag, Outs;
    var t := Abandoned(s, id);
    forall i, x | i in t.pending && Holds(t.pending[i], x) ensures x in t.claimable && t.claimable[x].0 == i {
      assert Holds(s.pending[i], x);
      assert !Holds(s.pending[id], x);
    }
  }

  lemma AbandonSplit(s: State, id: ClaimId)
    requires id in s.pending && !Whole(s, id)
    ensures !Inv(Abandoned(s, id))
  {
    hide Owned, QueueApart, Records, Outs;
    var t := Abandoned(s, id);
    var x :| x in s.claimable && s.claimable[x].0 == id && !Holds(s.pending[id], x);
    assert x in t.claimable && t.claimable[x].0 !in t.pending;
  }

  // ---- All steps ----

  datatype Step =
    | Registering(reqs: seq<Piece>, confHeight: nat, curHeight: nat, oracle: Oracle)
    | Seeing(block: Block, oracle: Oracle)
    | Disconnecting(height: nat, oracle: Oracle)
    | Unconfirming(txid: nat, oracle: Oracle)
    | Abandoning(o: OutPoint, found: Option<ClaimId>)

  function Apply(s: State, step: Step): Option<State> {
    match step
    case Registering(reqs, confHeight, curHeight, oracle) => Some(Register(s, reqs, confHeight, curHeight, oracle))
    case Seeing(b, oracle) => Matched(s, b.txs, b.confHeight, b.hash, b.curHeight, oracle)
    case Disconnecting(height, oracle) => Disconnect(s, height, oracle)
    case Unconfirming(txid, oracle) => Unconfirm(s, txid, oracle)
    case Abandoning(o, found) => Some(Abandon(s, o, found))
  }

  // What is assumed of each step.
  ghost predicate Allowed(s: State, step: Step) {
    match step
    case Registering(reqs, confHeight, curHeight, oracle) => CanRegister(s, reqs, confHeight, curHeight, oracle)
    case Seeing(b, _) => CanMatch(s, b.txs, b.confHeight, b.curHeight)
    case Disconnecting(height, _) =>
      AllFit(s.pending, s.claimable, s.events, height) && NoneReturns(s.claimable, s.events, height)
    case Unconfirming(txid, _) =>
      (match FirstHeight(s.events, txid)
       case None => true
       case Some(h) =>
         h > 0 && AllFit(s.pending, s.claimable, s.events, h - 1) && NoneReturns(s.claimable, s.events, h - 1))
    case Abandoning(o, found) => FindsClaim(s, o, found) && (found.Some? ==> Whole(s, found.value))
  }

  function Run(s: State, steps: seq<Step>): Option<State>
    decreases steps
  {
    if steps == [] then Some(s)
    else match Apply(s, steps[0])
      case None => None
      case Some(t) => Run(t, steps[1..])
  }

  ghost predicate AllowedRun(s: State, steps: seq<Step>)
    decreases steps
  {
    steps == [] ||
    (Allowed(s, steps[0]) && (Apply(s, steps[0]).Some? ==> AllowedRun(Apply(s, steps[0]).value, steps[1..])))
  }

  lemma StepKeepsConsistent(s: State, step: Step)
    requires Consistent(s) && Allowed(s, step)
    ensures Apply(s, step).Some? && Consistent(Apply(s, step).value)
  {
    hide Consistent, CanRegister, CanMatch, AllFit, NoneReturns, FindsClaim, Whole, Register, Matched, Disconnect,
      Abandon;
    match step
    case Registering(reqs, confHeight, curHeight, oracle) =>
      RegisterKeepsConsistent(s, reqs, confHeight, curHeight, oracle);
    case Seeing(b, oracle) =>
      MatchedKeepsConsistent(s, b.txs, b.confHeight, b.hash, b.curHeight, oracle);
    case Disconnecting(height, oracle) =>
      DisconnectPanicsExactlyWhen(s, height, oracle);
      DisconnectKeepsConsistentExactlyWhen(s, height, oracle);
    case Unconfirming(txid, oracle) =>
      match FirstHeight(s.events, txid) {
        case None =>
        case Some(h) =>
          DisconnectPanicsExactlyWhen(s, h - 1, oracle);
          DisconnectKeepsConsistentExactlyWhen(s, h - 1, oracle);
      }
    case Abandoning(o, found) =>
      AbandonKeepsConsistentExactlyWhen(s, o, found);
  }

  // In every run of allowed steps from the empty tracker no step panics, every claimable outpoint
  // names a live request, and it is in that request or in an unmatured contentious event.
  lemma {:induction false} RunsStayConsistent(s: State, steps: seq<Step>)
    requires Consistent(s) && AllowedRun(s, steps)
    ensures Run(s, steps).Some? && Consistent(Run(s, steps).value)
    decreases steps
  {
    hide Consistent, Allowed, Apply;
    if steps != [] {
      StepKeepsConsistent(s, steps[0]);
      RunsStayConsistent(Apply(s, steps[0]).value, steps[1..]);
    }
  }

  lemma EmptyIsConsistent()
    ensures Consistent(EMPTY)
  {
  }

  // ---- Where the promises end ----

  // Deduplication compares whole packages. A request for a timelocked outpoint is therefore taken
  // a second time exactly when that outpoint sits in an aggregated package.
  lemma DedupMissesExactlyAggregated(s: State, req: Piece, height: nat)
    requires Consistent(s)
    ensures
      var (ready, queue) := Preprocess(s, [req], height);
      (forall o :: (GroupBag(ready) + QueueBag(queue))[o] <= 1)
      <==> IsDuplicate(s, req) || req.inputs[0].0 !in QueueBag(s.locktimed)
  {
    hide QueueBag, Preprocess, IsDuplicate, Records, Live, Owned, FormedQueue, NoDup;
    RegisterConserves(s, [req], height);
    var o := req.inputs[0].0;
    assert [req][1..] == [];
    assert Outpoints(req.inputs) == [o];
    var kept := DropDuplicates(s, [req]);
    if IsDuplicate(s, req) {
      assert kept == DropDuplicates(s, []);
      assert GroupBag(kept) == multiset{};
      QueueCounts(s);
    } else {
      assert kept == [req] + DropDuplicates(s, []);
      assert kept == [req];
      assert GroupBag([req]) == Bag(req.inputs) + GroupBag([]);
      QueueCounts(s);
      assert (GroupBag(kept) + QueueBag(s.locktimed))[o] == 1 + QueueBag(s.locktimed)[o];
    }
  }

  lemma QueueCounts(s: State)
    requires Consistent(s)
    ensures forall o :: QueueBag(s.locktimed)[o] <= 1
  {
    forall o ensures QueueBag(s.locktimed)[o] <= 1 {
      if o in QueueBag(s.locktimed) { assert QueueBag(s.locktimed)[o] == 1; }
    }
  }
}
