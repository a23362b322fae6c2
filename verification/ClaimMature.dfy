// Maturing events, and the whole step `update_claims_view_from_matched_txn`.
module ClaimMature {
  import opened Common
  import opened Packages
  import opened ClaimState
  import opened ClaimInvariant
  import opened ClaimSpend

  // ---- What maturing removes ----

  ghost predicate Retires(e: Entry, id: ClaimId, height: nat) {
    HasMatured(e, height) && e.event == Claimed(id)
  }

  // A matured event in `todo` stops the tracking of `o`.
  ghost predicate Releases(pending: Requests, e: Entry, o: OutPoint, height: nat) {
    HasMatured(e, height) &&
    match e.event
    case Claimed(id) => id in pending && Holds(pending[id], o)
    case Contentious(p) => p.inputs[0].0 == o
  }

  function Unmatured(todo: seq<Entry>, height: nat): seq<Entry> {
    if todo == [] then []
    else (if HasMatured(todo[0], height) then [] else [todo[0]]) + Unmatured(todo[1..], height)
  }

  lemma {:induction false} UnmaturedMembers(todo: seq<Entry>, height: nat)
    ensures forall e :: e in Unmatured(todo, height) <==> e in todo && !HasMatured(e, height)
    ensures NoDup(todo) ==> NoDup(Unmatured(todo, height))
  {
    if todo != [] {
      UnmaturedMembers(todo[1..], height);
      assert todo == [todo[0]] + todo[1..];
    }
  }

  lemma {:induction false} MatureEvents(s: State, todo: seq<Entry>, height: nat)
    ensures Mature(s, todo, height).events == s.events + Unmatured(todo, height)
    ensures Mature(s, todo, height).locktimed == s.locktimed
    decreases todo
  {
    if todo != [] {
      if HasMatured(todo[0], height) {
        MatureEvents(MatureOne(s, todo[0]), todo[1..], height);
      } else {
        MatureEvents(s.(events := s.events + [todo[0]]), todo[1..], height);
      }
    }
  }

  lemma {:induction false} MaturePending(s: State, todo: seq<Entry>, height: nat, id: ClaimId)
    ensures id in Mature(s, todo, height).pending <==>
            id in s.pending && forall e :: e in todo ==> !Retires(e, id, height)
    ensures id in Mature(s, todo, height).pending ==> Mature(s, todo, height).pending[id] == s.pending[id]
    decreases todo
  {
    if todo != [] {
      if HasMatured(todo[0], height) {
        var t := MatureOne(s, todo[0]);
        MaturePending(t, todo[1..], height, id);
        if Retires(todo[0], id, height) {
          assert id !in t.pending && todo[0] in todo;
        } else {
          assert id in t.pending <==> id in s.pending;
        }
      } else {
        MaturePending(s.(events := s.events + [todo[0]]), todo[1..], height, id);
      }
      assert forall e :: e in todo <==> e == todo[0] || e in todo[1..];
    }
  }

  lemma {:induction false} MatureClaimable(s: State, todo: seq<Entry>, height: nat, o: OutPoint)
    ensures o in Mature(s, todo, height).claimable <==>
            o in s.claimable && forall e :: e in todo ==> !Releases(s.pending, e, o, height)
    ensures o in Mature(s, todo, height).claimable ==> Mature(s, todo, height).claimable[o] == s.claimable[o]
    decreases todo
  {
    if todo != [] {
      assert forall e :: e in todo <==> e == todo[0] || e in todo[1..];
      if HasMatured(todo[0], height) {
        var t := MatureOne(s, todo[0]);
        if todo[0].event.Claimed? && todo[0].event.id in s.pending {
          OutsAreIndices(s.pending[todo[0].event.id].inputs);
        }
        MatureClaimable(t, todo[1..], height, o);
        if !Releases(s.pending, todo[0], o, height) {
          assert forall e :: Releases(t.pending, e, o, height) <==> Releases(s.pending, e, o, height);
        }
      } else {
        MatureClaimable(s.(events := s.events + [todo[0]]), todo[1..], height, o);
      }
    }
  }

  // ---- Maturing keeps the invariant ----

  lemma MatureKeepsInv(s: State, height: nat)
    requires Inv(s)
    ensures Inv(Mature(s.(events := []), s.events, height))
  {
    hide Places, Records, FormedRequests, FormedQueue, Mature, Retires, Releases, HasMatured;
    var t := Mature(s.(events := []), s.events, height);
    MatureParts(s, t, height);
    MaturePlaces(s, t, height);
    MatureRecords(s, t);
    MatureSmall(s, t);
  }

  ghost predicate MaturedTo(s: State, t: State, height: nat) {
    && t.locktimed == s.locktimed
    && (forall e :: e in t.events <==> e in s.events && !HasMatured(e, height))
    && (forall id :: id in t.pending <==> id in s.pending && forall e :: e in s.events ==> !Retires(e, id, height))
    && (forall id :: id in t.pending ==> t.pending[id] == s.pending[id])
    && (forall o :: o in t.claimable <==>
          o in s.claimable && forall e :: e in s.events ==> !Releases(s.pending, e, o, height))
    && (forall o :: o in t.claimable ==> t.claimable[o] == s.claimable[o])
  }

  lemma MatureParts(s: State, t: State, height: nat)
    requires t == Mature(s.(events := []), s.events, height)
    ensures MaturedTo(s, t, height)
  {
    hide HasMatured, Retires, Releases, Mature;
    var e0 := s.(events := []);
    MatureEvents(e0, s.events, height);
    UnmaturedMembers(s.events, height);
    forall id
      ensures id in t.pending <==> id in s.pending && forall e :: e in s.events ==> !Retires(e, id, height)
      ensures id in t.pending ==> t.pending[id] == s.pending[id]
    {
      MaturePending(e0, s.events, height, id);
    }
    forall o
      ensures o in t.claimable <==>
              o in s.claimable && forall e :: e in s.events ==> !Releases(s.pending, e, o, height)
      ensures o in t.claimable ==> t.claimable[o] == s.claimable[o]
    {
      MatureClaimable(e0, s.events, height, o);
    }
  }

  lemma MaturePlaces(s: State, t: State, height: nat)
    requires Inv(s) && MaturedTo(s, t, height)
    ensures Places(t)
  {
    hide Live, Owned, QueueApart, SameHeight, Records, FormedRequests, FormedQueue, QueueBag, Retires, Releases,
      HasMatured, ContestedAbove;
    MembersContest(t.events, s.events, -1);
    RecordsOrdered(s);
    MatureLive(s, t, height);
    MatureOwned(s, t, height);
    FewerLinks(s.claimable, t.claimable, QueueBag(s.locktimed), Contested(s.events), Contested(t.events));
  }

  lemma RecordsOrdered(s: State)
    requires Records(s)
    ensures Ordered(s.claimable, s.events)
  {
    hide OneSpend, FormedEvents, Matching, Ordered;
  }

  lemma FewerLinks(more: Links, less: Links, queued: multiset<OutPoint>, all: set<OutPoint>, some: set<OutPoint>)
    requires forall o :: o in less ==> o in more && less[o] == more[o]
    requires some <= all && SameHeight(more) && QueueApart(queued, more, all)
    ensures SameHeight(less) && QueueApart(queued, less, some)
  {
  }

  lemma MatureLive(s: State, t: State, height: nat)
    requires Places(s) && Ordered(s.claimable, s.events) && MaturedTo(s, t, height)
    ensures Live(t.pending, t.claimable, Contested(t.events))
  {
    hide Places, Ordered, Retires, Releases, HasMatured, Contested, Holds;
    forall o | o in t.claimable
      ensures t.claimable[o].0 in t.pending && (Holds(t.pending[t.claimable[o].0], o) || o in Contested(t.events))
    {
      StaysLive(s, t, height, o);
    }
  }

  lemma StaysLive(s: State, t: State, height: nat, o: OutPoint)
    requires Places(s) && Ordered(s.claimable, s.events) && MaturedTo(s, t, height) && o in t.claimable
    ensures t.claimable[o].0 in t.pending && (Holds(t.pending[t.claimable[o].0], o) || o in Contested(t.events))
  {
    hide Owned, QueueApart, SameHeight, QueueBag, HasMatured, Holds, Ordered, Retires, Releases;
    var id := s.claimable[o].0;
    if Holds(s.pending[id], o) {
      forall f | f in s.events ensures !Retires(f, id, height) {
        RetiresHeld(s.pending, f, id, o, height);
      }
    } else {
      var e := ContestedBy(s.events, o, -1);
      forall f | f in s.events ensures !Retires(f, id, height) {
        RetiresLater(s, e, f, o, height);
      }
      StaysContested(s, t, e, height);
    }
  }

  lemma RetiresHeld(pending: Requests, f: Entry, id: ClaimId, o: OutPoint, height: nat)
    requires id in pending && Holds(pending[id], o) && !Releases(pending, f, o, height)
    ensures !Retires(f, id, height)
  {
    hide HasMatured, Holds;
  }

  // A claim does not mature before the spends that split it.
  lemma RetiresLater(s: State, e: Entry, f: Entry, o: OutPoint, height: nat)
    requires Ordered(s.claimable, s.events) && e in s.events && f in s.events && o in s.claimable
    requires e.event.Contentious? && SpentOut(e) == o && !Releases(s.pending, e, o, height)
    ensures !Retires(f, s.claimable[o].0, height)
  {
  }

  lemma StaysContested(s: State, t: State, e: Entry, height: nat)
    requires e in s.events && e.event.Contentious? && !Releases(s.pending, e, SpentOut(e), height)
    requires forall e :: e in t.events <==> e in s.events && !HasMatured(e, height)
    ensures SpentOut(e) in Contested(t.events)
  {
    ContestedHas(t.events, e, -1);
  }

  lemma MatureOwned(s: State, t: State, height: nat)
    requires Places(s) && MaturedTo(s, t, height)
    requires Contested(t.events) <= Contested(s.events)
    ensures Owned(t.pending, t.claimable, Contested(t.events))
  {
    hide Releases, Retires, Live, QueueApart, SameHeight, Holds;
    forall id, o | id in t.pending && Holds(t.pending[id], o) ensures o in t.claimable {
      forall e | e in s.events ensures !Releases(s.pending, e, o, height) {
        NotReleased(s, e, id, o, height);
      }
    }
  }

  // An event that does not retire a request does not release its outpoints.
  lemma NotReleased(s: State, e: Entry, id: ClaimId, o: OutPoint, height: nat)
    requires Owned(s.pending, s.claimable, Contested(s.events)) && e in s.events
    requires id in s.pending && Holds(s.pending[id], o) && !Retires(e, id, height)
    ensures !Releases(s.pending, e, o, height)
  {
    hide HasMatured, Holds;
    assert s.claimable[o].0 == id;
    match e.event
    case Claimed(i) =>
      if i in s.pending && Holds(s.pending[i], o) {
        assert s.claimable[o].0 == i;
      }
    case Contentious(p) =>
      if SpentOut(e) == o {
        ContestedHas(s.events, e, -1);
      }
  }

  // Fewer events, requests and links keep the records.
  lemma MatureRecords(s: State, t: State)
    requires Records(s)
    requires forall e :: e in t.events ==> e in s.events
    requires forall id :: id in t.pending ==> id in s.pending && t.pending[id] == s.pending[id]
    requires forall o :: o in t.claimable ==> o in s.claimable && t.claimable[o] == s.claimable[o]
    ensures Records(t)
  {
  }

  lemma MatureSmall(s: State, t: State)
    requires FormedRequests(s.pending) && FormedQueue(s.locktimed) && t.locktimed == s.locktimed
    requires forall id :: id in t.pending ==> id in s.pending && t.pending[id] == s.pending[id]
    ensures FormedRequests(t.pending) && FormedQueue(t.locktimed)
  {
  }

  // Nothing happens while no event has matured.
  lemma {:induction false} MatureNothing(s: State, todo: seq<Entry>, height: nat)
    requires forall e :: e in todo ==> !HasMatured(e, height)
    ensures Mature(s, todo, height) == s.(events := s.events + todo)
    decreases todo
  {
    if todo != [] {
      assert todo == [todo[0]] + todo[1..];
      MatureNothing(s.(events := s.events + [todo[0]]), todo[1..], height);
      assert s.events + [todo[0]] + todo[1..] == s.events + todo;
    }
  }

  // ---- Bumping changes timers and feerates only ----

  lemma RebumpAlike(s: State, bumps: map<ClaimId, Package>, height: nat, oracle: Oracle)
    ensures Alike(s, Rebump(s, bumps, height, oracle))
    ensures Rebump(s, bumps, height, oracle).events == s.events
  {
  }

  // ---- No event is recorded twice ----

  lemma RecordNoDup(events: seq<Entry>, e: Entry)
    requires NoDup(events)
    ensures NoDup(Record(events, e))
  {
  }

  lemma {:induction false} SplitInputsNoDup(request: Package, events: seq<Entry>, pieces: seq<Piece>,
                                            os: seq<OutPoint>, claimed: Entry)
    requires NoDup(events)
    ensures NoDup(SplitInputs(request, events, pieces, os, claimed).1)
    decreases os
  {
    if os != [] {
      RecordNoDup(events, claimed);
      var piece, rest := SplitPiece(request, os[0]), SplitRest(request, os[0]);
      SplitInputsNoDup(rest, if rest.inputs == [] then Record(events, claimed) else events,
                       if piece.None? then pieces else pieces + [piece.value], os[1..], claimed);
    }
  }

  lemma {:induction false} SpendInputsNoDup(c: Scan, tx: Tx, os: seq<OutPoint>, at: nat, hash: nat)
    requires NoDup(c.s.events)
    ensures var d := SpendInputs(c, tx, os, at, hash); d.Some? ==> NoDup(d.value.s.events)
    decreases os
  {
    if os != [] {
      var d := SpendRequest(c, tx, os[0], at, hash);
      if d.Some? {
        SpendRequestNoDup(c, tx, os[0], at, hash);
        SpendInputsNoDup(SpendQueued(d.value, os[0]), tx, os[1..], at, hash);
      }
    }
  }

  lemma SpendRequestNoDup(c: Scan, tx: Tx, o: OutPoint, at: nat, hash: nat)
    requires NoDup(c.s.events)
    ensures var d := SpendRequest(c, tx, o, at, hash); d.Some? ==> NoDup(d.value.s.events)
  {
    if o in c.s.claimable && c.s.claimable[o].0 in c.s.pending {
      var id := c.s.claimable[o].0;
      var claimed := Entry(tx.txid, at, hash, Claimed(id));
      RecordNoDup(c.s.events, claimed);
      SplitInputsNoDup(c.s.pending[id], c.s.events, c.pieces, tx.inputs, claimed);
    }
  }

  lemma {:induction false} RecordPiecesNoDup(events: seq<Entry>, pieces: seq<Piece>, tx: Tx, at: nat, hash: nat)
    requires NoDup(events)
    ensures NoDup(RecordPieces(events, pieces, tx, at, hash))
    decreases pieces
  {
    if pieces != [] {
      var e := PieceEntry(tx, at, hash, pieces[0]);
      RecordNoDup(events, e);
      RecordPiecesNoDup(Record(events, e), pieces[1..], tx, at, hash);
    }
  }

  lemma {:induction false} SpendTxsNoDup(s: State, bumps: map<ClaimId, Package>, txs: seq<Tx>, at: nat, hash: nat)
    requires NoDup(s.events)
    ensures var r := SpendTxs(s, bumps, txs, at, hash); r.Some? ==> NoDup(r.value.0.events)
    decreases txs
  {
    if txs != [] {
      var c := SpendInputs(Scan(s, [], bumps), txs[0], txs[0].inputs, at, hash);
      if c.Some? {
        SpendInputsNoDup(Scan(s, [], bumps), txs[0], txs[0].inputs, at, hash);
        RecordPiecesNoDup(c.value.s.events, c.value.pieces, txs[0], at, hash);
        var r := SpendTx(s, bumps, txs[0], at, hash).value;
        SpendTxsNoDup(r.0, r.1, txs[1..], at, hash);
      }
    }
  }

  // ---- The whole step ----

  ghost predicate Consistent(s: State) {
    Inv(s) && NoDup(s.events)
  }

  ghost predicate CanMatch(s: State, txs: seq<Tx>, confHeight: nat, curHeight: nat) {
    && confHeight <= curHeight
    && EventsUpTo(s.events, confHeight)
    && forall tx :: tx in txs ==> NoRespend(s, tx, confHeight)
  }

  // Seeing a block's transactions never panics and keeps the tracker consistent.
  lemma MatchedKeepsConsistent(s: State, txs: seq<Tx>, confHeight: nat, hash: nat, curHeight: nat, oracle: Oracle)
    requires Consistent(s) && CanMatch(s, txs, confHeight, curHeight)
    ensures Matched(s, txs, confHeight, hash, curHeight, oracle).Some?
    ensures Consistent(Matched(s, txs, confHeight, hash, curHeight, oracle).value)
  {
    hide Places, Records, FormedQueue, FormedRequests, Mature, Rebump, NoDup, SpendTxs, NoRespend, EventsUpTo, Spent;
    SpendTxsConsistent(s, map[], txs, confHeight, hash);
    var (t, bumps) := SpendTxs(s, map[], txs, confHeight, hash).value;
    MatureKeepsInv(t, curHeight);
    MatureEvents(t.(events := []), t.events, curHeight);
    UnmaturedMembers(t.events, curHeight);
    var m := Mature(t.(events := []), t.events, curHeight);
    assert m.events == Unmatured(t.events, curHeight);
    RebumpAlike(m, bumps, curHeight, oracle);
    AlikeKeepsInv(m, Rebump(m, bumps, curHeight, oracle));
  }

  lemma SpendTxsConsistent(s: State, bumps: map<ClaimId, Package>, txs: seq<Tx>, at: nat, hash: nat)
    requires Consistent(s) && EventsUpTo(s.events, at) && forall tx :: tx in txs ==> NoRespend(s, tx, at)
    ensures SpendTxs(s, bumps, txs, at, hash).Some?
    ensures Consistent(SpendTxs(s, bumps, txs, at, hash).value.0)
  {
    hide Places, Records, FormedQueue, FormedRequests, SpendTxs, NoRespend, EventsUpTo, NoDup, Spent;
    SpendTxsNoDup(s, bumps, txs, at, hash);
    SpendTxsSpent(s, bumps, txs, at, hash, -1);
  }

  // ---- Which claims are generated again ----

  ghost predicate ConfirmedClaim(s: State, id: ClaimId) {
    exists e :: e in s.events && e.event == Claimed(id)
  }

  // A claim of a pending request is generated exactly when none is confirmed and waiting already.
  lemma GeneratedExactlyWhen(s: State, id: ClaimId, height: nat, oracle: Oracle)
    requires Owned(s.pending, s.claimable, Contested(s.events)) && id in s.pending && s.pending[id].inputs != []
    ensures GenerateClaim(s, s.pending[id], height, oracle) ==
              if ConfirmedClaim(s, id) then None else oracle(height, s.pending[id])
  {
    hide Owned, HasConfirmedSpend, ConfirmedClaim;
    var p := s.pending[id];
    OutsAreIndices(p.inputs);
    forall i | 0 <= i < |p.inputs| ensures HasConfirmedSpend(s, p.inputs[i].0) <==> ConfirmedClaim(s, id) {
      ConfirmedTogether(s, id, p.inputs[i].0);
    }
    assert HasConfirmedSpend(s, p.inputs[0].0) <==> ConfirmedClaim(s, id);
  }

  lemma ConfirmedTogether(s: State, id: ClaimId, o: OutPoint)
    requires Owned(s.pending, s.claimable, Contested(s.events)) && id in s.pending && Holds(s.pending[id], o)
    ensures HasConfirmedSpend(s, o) <==> ConfirmedClaim(s, id)
  {
    hide Holds;
    assert s.claimable[o].0 == id;
    if ConfirmedClaim(s, id) {
      var e :| e in s.events && e.event == Claimed(id);
    }
  }

  // A request is bumped exactly when it lost an outpoint or its timer ran out, no claim of it is
  // confirmed, and a new claim can be built; its outpoints stay as they are.
  lemma RebumpedExactlyWhen(s: State, bumps: map<ClaimId, Package>, height: nat, oracle: Oracle, id: ClaimId)
    requires Consistent(s) && id in s.pending && s.pending[id].inputs != []
    requires id in bumps ==> bumps[id] == s.pending[id]
    ensures
      var p, claim := s.pending[id], oracle(height, s.pending[id]);
      id in Rebump(s, bumps, height, oracle).pending
      && Rebump(s, bumps, height, oracle).pending[id] ==
           if (id in bumps || height >= p.timer) && !ConfirmedClaim(s, id) && claim.Some? then
             p.(timer := claim.value.timer, feerate := claim.value.feerate)
           else p
  {
    hide GenerateClaim, Records, NoDup, FormedRequests, FormedQueue, Live, Owned, QueueApart, SameHeight;
    GeneratedExactlyWhen(s, id, height, oracle);
  }
}
