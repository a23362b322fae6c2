// What a block does to the tracker, said of its transactions alone: the events it brings, what is
// given up, and which requests get a new claim.
module ClaimMatched {
  import opened Common
  import opened Packages
  import opened ClaimState
  import opened ClaimInvariant
  import opened ClaimSpend
  import opened ClaimMature
  import opened ClaimBlocks

  // ---- All transactions of a block ----

  function PendingAfter(pending: Requests, txs: seq<Tx>): Requests {
    map id | id in pending :: AfterTxs(pending[id], txs)
  }

  // Some transaction causes the event, given what the ones before it left.
  ghost predicate BlockBrings(pending: Requests, q: Queue, txs: seq<Tx>, at: nat, hash: nat, e: Entry) {
    exists i :: 0 <= i < |txs| && BringsAt(pending, q, txs, i, at, hash, e)
  }

  ghost predicate BringsAt(pending: Requests, q: Queue, txs: seq<Tx>, i: nat, at: nat, hash: nat, e: Entry)
    requires i < |txs|
  {
    Brings(PendingAfter(pending, txs[..i]), QueueAfter(q, InsOfAll(txs[..i])), txs[i], at, hash, e)
  }

  ghost predicate TxsDone(s: State, bumps: Requests, t: State, after: Requests, txs: seq<Tx>, at: nat, hash: nat) {
    && t.claimable == s.claimable
    && t.pending == PendingAfter(s.pending, txs)
    && Noted(s.pending, t.pending, bumps, after)
    && t.locktimed == QueueAfter(s.locktimed, InsOfAll(txs))
    && forall e :: e in t.events <==> e in s.events || BlockBrings(s.pending, s.locktimed, txs, at, hash, e)
  }

  lemma PendingAfterFirst(pending: Requests, mid: Requests, txs: seq<Tx>)
    requires txs != [] && mid.Keys == pending.Keys
    requires forall id :: id in pending ==> mid[id] == AfterTx(pending[id], txs[0])
    ensures PendingAfter(pending, txs) == PendingAfter(mid, txs[1..])
  {
    hide AfterTx;
  }

  lemma QueueAfterTwice(q: Queue, a: set<OutPoint>, b: set<OutPoint>)
    ensures QueueAfter(QueueAfter(q, a), b) == QueueAfter(q, a + b)
  {
    hide StripQueue;
    StripQueueTwice(q, a, b);
    if a == {} { assert a + b == b; }
    if b == {} { assert a + b == a; }
  }

  lemma QueueAfterFirst(q: Queue, txs: seq<Tx>)
    requires txs != []
    ensures QueueAfter(q, InsOfAll(txs)) == QueueAfter(QueueAfter(q, Ins(txs[0])), InsOfAll(txs[1..]))
  {
    QueueAfterTwice(q, Ins(txs[0]), InsOfAll(txs[1..]));
  }

  lemma BringsFirst(pending: Requests, q: Queue, txs: seq<Tx>, at: nat, hash: nat, e: Entry)
    requires txs != []
    ensures BringsAt(pending, q, txs, 0, at, hash, e) <==> Brings(pending, q, txs[0], at, hash, e)
  {
    assert txs[..0] == [];
    assert PendingAfter(pending, []) == pending;
  }

  lemma BringsNext(pending: Requests, q: Queue, mid: Requests, txs: seq<Tx>, i: nat, at: nat, hash: nat, e: Entry)
    requires 1 <= i < |txs| && mid.Keys == pending.Keys
    requires forall id :: id in pending ==> mid[id] == AfterTx(pending[id], txs[0])
    ensures BringsAt(pending, q, txs, i, at, hash, e) <==>
            BringsAt(mid, QueueAfter(q, Ins(txs[0])), txs[1..], i - 1, at, hash, e)
  {
    hide Brings, AfterTx, QueueAfter, InsOfAll, PendingAfter;
    var front := txs[..i];
    assert front[1..] == txs[1..][..i - 1] && front[0] == txs[0];
    PendingAfterFirst(pending, mid, front);
    QueueAfterFirst(q, front);
  }

  lemma BlockBringsFirst(pending: Requests, q: Queue, mid: Requests, txs: seq<Tx>, at: nat, hash: nat, e: Entry)
    requires txs != [] && mid.Keys == pending.Keys
    requires forall id :: id in pending ==> mid[id] == AfterTx(pending[id], txs[0])
    ensures BlockBrings(pending, q, txs, at, hash, e) <==>
            Brings(pending, q, txs[0], at, hash, e)
            || BlockBrings(mid, QueueAfter(q, Ins(txs[0])), txs[1..], at, hash, e)
  {
    hide BringsAt, Brings, QueueAfter, AfterTx;
    BringsFirst(pending, q, txs, at, hash, e);
    forall i | 1 <= i < |txs|
      ensures BringsAt(pending, q, txs, i, at, hash, e) <==>
              BringsAt(mid, QueueAfter(q, Ins(txs[0])), txs[1..], i - 1, at, hash, e)
    {
      BringsNext(pending, q, mid, txs, i, at, hash, e);
    }
    if BlockBrings(mid, QueueAfter(q, Ins(txs[0])), txs[1..], at, hash, e) {
      var j :| 0 <= j < |txs[1..]| && BringsAt(mid, QueueAfter(q, Ins(txs[0])), txs[1..], j, at, hash, e);
      assert BringsAt(pending, q, txs, j + 1, at, hash, e);
    }
  }

  lemma OwningKept(s: State, now: Requests, tx: Tx)
    requires Owning(s.pending, s.claimable) && now.Keys == s.pending.Keys
    requires forall id :: id in s.pending ==> now[id] == AfterTx(s.pending[id], tx)
    ensures Owning(now, s.claimable)
  {
    hide WellFormed, AfterTx;
    forall id | id in now
      ensures WellFormed(now[id]) && Outs(now[id].inputs) <= Outs(s.pending[id].inputs)
    {
      AfterTxFormed(s.pending[id], tx);
    }
  }

  lemma {:induction false} SpendTxsDone(s: State, bumps: Requests, txs: seq<Tx>, at: nat, hash: nat)
    requires SpendTxs(s, bumps, txs, at, hash).Some?
    requires Owning(s.pending, s.claimable) && FormedGroups(s.locktimed)
    ensures
      var r := SpendTxs(s, bumps, txs, at, hash).value;
      TxsDone(s, bumps, r.0, r.1, txs, at, hash)
    decreases txs
  {
    hide SpendTx, Noted, FormedGroups, AfterTx, Brings, StripQueue, Owning, BlockBrings, PendingAfter, InsOfAll;
    if txs == [] {
      NoTxsDone(s, bumps, at, hash);
    } else {
      var r := SpendTx(s, bumps, txs[0], at, hash).value;
      SpendTxDone(s, bumps, txs[0], at, hash);
      OwningKept(s, r.0.pending, txs[0]);
      StripQueueFormed(s.locktimed, Ins(txs[0]));
      SpendTxsDone(r.0, r.1, txs[1..], at, hash);
      var t := SpendTxs(s, bumps, txs, at, hash).value;
      NotedTrans(s.pending, r.0.pending, t.0.pending, bumps, r.1, t.1);
      PendingAfterFirst(s.pending, r.0.pending, txs);
      QueueAfterFirst(s.locktimed, txs);
      forall e ensures e in t.0.events <==> e in s.events || BlockBrings(s.pending, s.locktimed, txs, at, hash, e) {
        BlockBringsFirst(s.pending, s.locktimed, r.0.pending, txs, at, hash, e);
      }
    }
  }

  lemma NoTxsDone(s: State, bumps: Requests, at: nat, hash: nat)
    ensures TxsDone(s, bumps, s, bumps, [], at, hash)
  {
    hide BringsAt;
    NothingNoted(s.pending, bumps);
    assert PendingAfter(s.pending, []) == s.pending;
  }

  // ---- The whole step ----

  ghost predicate Known(s: State, txs: seq<Tx>, at: nat, hash: nat, e: Entry) {
    e in s.events || BlockBrings(s.pending, s.locktimed, txs, at, hash, e)
  }

  // The parts of the step: the state after the transactions, and that state matured.
  lemma MatchedParts(s: State, txs: seq<Tx>, confHeight: nat, hash: nat, curHeight: nat, oracle: Oracle)
    returns (t: State, after: Requests, m: State)
    requires Consistent(s) && CanMatch(s, txs, confHeight, curHeight)
    ensures TxsDone(s, map[], t, after, txs, confHeight, hash)
    ensures Consistent(m) && MaturedTo(t, m, curHeight)
    ensures Matched(s, txs, confHeight, hash, curHeight, oracle) == Some(Rebump(m, after, curHeight, oracle))
  {
    hide TxsDone, SpendTxs, Mature, Rebump, Inv, NoDup, EventsUpTo, NoRespend, Owning, FormedGroups, MaturedTo;
    SpendTxsConsistent(s, map[], txs, confHeight, hash);
    ConsistentOwning(s);
    SpendTxsDone(s, map[], txs, confHeight, hash);
    var r := SpendTxs(s, map[], txs, confHeight, hash).value;
    t, after := r.0, r.1;
    m := Mature(t.(events := []), t.events, curHeight);
    MatureParts(t, m, curHeight);
    MatureKeepsInv(t, curHeight);
    MatureEvents(t.(events := []), t.events, curHeight);
    UnmaturedMembers(t.events, curHeight);
    assert m.events == Unmatured(t.events, curHeight);
  }

  lemma ConsistentOwning(s: State)
    requires Inv(s)
    ensures Owning(s.pending, s.claimable) && FormedGroups(s.locktimed)
  {
    hide Records, Live, QueueApart, SameHeight, FormedGroup, LevelGroup, WellFormed, Holds;
  }

  // After a block, the events are those known before and those its transactions bring, as far as they
  // are less than six blocks deep.
  lemma MatchedEventsExactly(s: State, txs: seq<Tx>, confHeight: nat, hash: nat, curHeight: nat, oracle: Oracle)
    requires Consistent(s) && CanMatch(s, txs, confHeight, curHeight)
    ensures Matched(s, txs, confHeight, hash, curHeight, oracle).Some?
    ensures forall e :: e in Matched(s, txs, confHeight, hash, curHeight, oracle).value.events <==>
                        Known(s, txs, confHeight, hash, e) && curHeight < e.height + 5
  {
    hide Consistent, CanMatch, BlockBrings, Noted;
    var t, after, m := MatchedParts(s, txs, confHeight, hash, curHeight, oracle);
    assert Rebump(m, after, curHeight, oracle).events == m.events;
  }

  // A request is given up exactly when a claim of it has become six blocks deep.
  lemma MatchedKeepsExactly(s: State, txs: seq<Tx>, confHeight: nat, hash: nat, curHeight: nat, oracle: Oracle,
                            id: ClaimId)
    requires Consistent(s) && CanMatch(s, txs, confHeight, curHeight)
    ensures Matched(s, txs, confHeight, hash, curHeight, oracle).Some?
    ensures id in Matched(s, txs, confHeight, hash, curHeight, oracle).value.pending <==>
            id in s.pending
            && forall e :: Known(s, txs, confHeight, hash, e) && e.event == Claimed(id) ==> curHeight < e.height + 5
  {
    hide Consistent, CanMatch, BlockBrings, Noted, AfterTxs;
    var t, after, m := MatchedParts(s, txs, confHeight, hash, curHeight, oracle);
    assert id in Rebump(m, after, curHeight, oracle).pending <==> id in m.pending;
    assert id in t.pending <==> id in s.pending;
    if id in t.pending && id !in m.pending {
      var e :| e in t.events && Retires(e, id, curHeight);
      assert Known(s, txs, confHeight, hash, e);
    }
    if e :| Known(s, txs, confHeight, hash, e) && e.event == Claimed(id) && curHeight >= e.height + 5 {
      assert Retires(e, id, curHeight);
    }
  }

  // An outpoint is let go exactly when an event six blocks deep releases it: a claim of the request
  // that holds it after the block, or a spend of the outpoint itself.
  ghost predicate LetGo(s: State, txs: seq<Tx>, o: OutPoint, e: Entry) {
    match e.event
    case Claimed(id) => id in s.pending && Holds(AfterTxs(s.pending[id], txs), o)
    case Contentious(p) => p.inputs[0].0 == o
  }

  lemma MatchedLinksExactly(s: State, txs: seq<Tx>, confHeight: nat, hash: nat, curHeight: nat, oracle: Oracle,
                            o: OutPoint)
    requires Consistent(s) && CanMatch(s, txs, confHeight, curHeight)
    ensures Matched(s, txs, confHeight, hash, curHeight, oracle).Some?
    ensures
      var links := Matched(s, txs, confHeight, hash, curHeight, oracle).value.claimable;
      && (o in links <==>
          o in s.claimable
          && forall e :: Known(s, txs, confHeight, hash, e) && LetGo(s, txs, o, e) ==> curHeight < e.height + 5)
      && (o in links ==> links[o] == s.claimable[o])
  {
    hide Consistent, CanMatch, BlockBrings, Noted, AfterTxs, Holds;
    var t, after, m := MatchedParts(s, txs, confHeight, hash, curHeight, oracle);
    assert Rebump(m, after, curHeight, oracle).claimable == m.claimable;
    forall e ensures Releases(t.pending, e, o, curHeight) <==> LetGo(s, txs, o, e) && curHeight >= e.height + 5 {
    }
    if o in t.claimable && o !in m.claimable {
      var e :| e in t.events && Releases(t.pending, e, o, curHeight);
      assert Known(s, txs, confHeight, hash, e);
    }
    if e :| Known(s, txs, confHeight, hash, e) && LetGo(s, txs, o, e) && curHeight >= e.height + 5 {
      assert e in t.events;
    }
  }

  // The timelock queue loses exactly what the transactions spend.
  lemma MatchedQueueExactly(s: State, txs: seq<Tx>, confHeight: nat, hash: nat, curHeight: nat, oracle: Oracle)
    requires Consistent(s) && CanMatch(s, txs, confHeight, curHeight)
    ensures Matched(s, txs, confHeight, hash, curHeight, oracle).Some?
    ensures Matched(s, txs, confHeight, hash, curHeight, oracle).value.locktimed ==
            QueueAfter(s.locktimed, InsOfAll(txs))
  {
    hide Consistent, CanMatch, BlockBrings, Noted;
    var t, after, m := MatchedParts(s, txs, confHeight, hash, curHeight, oracle);
    assert Rebump(m, after, curHeight, oracle).locktimed == m.locktimed;
  }

  // A request that stays gets the timer and feerate of a new claim exactly when some transaction of
  // the block took an outpoint out of it or its timer ran out, no claim of it is confirmed, and one
  // can be built; its outpoints are what the transactions leave.
  lemma MatchedBumpsExactlyWhen(s: State, txs: seq<Tx>, confHeight: nat, hash: nat, curHeight: nat, oracle: Oracle,
                                id: ClaimId)
    requires Consistent(s) && CanMatch(s, txs, confHeight, curHeight)
    requires Matched(s, txs, confHeight, hash, curHeight, oracle).Some?
    requires id in Matched(s, txs, confHeight, hash, curHeight, oracle).value.pending
    ensures id in s.pending
    ensures
      var m := Matched(s, txs, confHeight, hash, curHeight, oracle).value;
      var was, left := s.pending[id], AfterTxs(s.pending[id], txs);
      var claim := oracle(curHeight, left);
      m.pending[id] ==
        if (left.inputs != was.inputs || curHeight >= was.timer)
           && !(exists e :: e in m.events && e.event == Claimed(id)) && claim.Some? then
          left.(timer := claim.value.timer, feerate := claim.value.feerate)
        else left
  {
    hide CanMatch, BlockBrings, Inv, NoDup, AfterTxs, GenerateClaim, MaturedTo;
    var t, after, m := MatchedParts(s, txs, confHeight, hash, curHeight, oracle);
    assert m.events == Rebump(m, after, curHeight, oracle).events;
    assert id in m.pending;
    MaturedKeepsRequest(t, m, curHeight, id);
    PendingFormed(m, id);
    NotedIs(s.pending, t.pending, after, id);
    AfterTxsFields(s.pending[id], txs);
    RebumpedExactlyWhen(m, after, curHeight, oracle, id);
  }

  lemma MaturedKeepsRequest(t: State, m: State, height: nat, id: ClaimId)
    requires MaturedTo(t, m, height) && id in m.pending
    ensures id in t.pending && m.pending[id] == t.pending[id]
  {
  }

  lemma PendingFormed(s: State, id: ClaimId)
    requires Inv(s) && id in s.pending
    ensures s.pending[id].inputs != []
  {
    hide Places, Records, FormedQueue;
  }

  lemma NotedIs(was: Requests, now: Requests, after: Requests, id: ClaimId)
    requires Noted(was, now, map[], after) && id in was
    ensures id in after <==> was[id].inputs != now[id].inputs
    ensures id in after ==> after[id] == now[id]
  {
    assert NotedFor(was, now, map[], after, id);
  }

  lemma {:induction false} AfterTxsFields(p: Package, txs: seq<Tx>)
    ensures AfterTxs(p, txs) == p.(inputs := AfterTxs(p, txs).inputs)
    decreases txs
  {
    if txs != [] { AfterTxsFields(AfterTx(p, txs[0]), txs[1..]); }
  }
}
