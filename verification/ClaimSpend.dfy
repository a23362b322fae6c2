// Seeing outpoints spent: the invariant is kept, the "Inconsistencies" panic is not reached, and
// every outpoint that leaves a request or the timelock queue is found in a contentious event.
module ClaimSpend {
  import opened Packages
  import opened ClaimState
  import opened ClaimInvariant

  // ---- The assumptions on blocks ----

  ghost predicate EventsUpTo(events: seq<Entry>, height: int) {
    forall e :: e in events ==> e.height <= height
  }

  // No double spend on one branch: a request whose claim confirmed in an earlier block is not
  // spent from again.
  ghost predicate NoRespend(s: State, tx: Tx, height: int) {
    forall e, o :: (e in s.events && e.height < height && e.event.Claimed? && e.event.id in s.pending
                    && o in tx.inputs) ==> !Holds(s.pending[e.event.id], o)
  }

  // ---- What spends leave alone ----

  // The events at or below `height`, in order.
  ghost function Below(events: seq<Entry>, height: int): seq<Entry> {
    if events == [] then []
    else
      var e := events[|events| - 1];
      Below(events[..|events| - 1], height) + (if e.height <= height then [e] else [])
  }

  // `o` is held by a request or the queue, or was split off above some height.
  ghost predicate Accounted(pending: Requests, claimable: Links, queued: multiset<OutPoint>, contested: set<OutPoint>,
                            o: OutPoint) {
    Tracked(pending, claimable, o) || o in queued || o in contested
  }

  ghost predicate SameAccounts(s: State, t: State, height: int) {
    forall o ::
      Accounted(s.pending, s.claimable, QueueBag(s.locktimed), ContestedAbove(s.events, height), o)
      <==> Accounted(t.pending, t.claimable, QueueBag(t.locktimed), ContestedAbove(t.events, height), o)
  }

  // Every timelocked input asks for a locktime above `height`.
  ghost predicate HighQueue(q: Queue, height: int) {
    forall i :: 0 <= i < |q| ==> HighGroup(q[i].1, height)
  }

  ghost predicate HighGroup(ps: seq<Package>, height: int) {
    forall p :: p in ps ==> HighInputs(p.inputs, height)
  }

  ghost predicate HighInputs(inputs: Inputs, height: int) {
    forall x :: x in inputs ==> InputLocktime(x.1) > height
  }

  // So does every outpoint spent above `height` that no request was tracking.
  ghost predicate HighEvents(events: seq<Entry>, claimable: Links, height: int) {
    forall e :: e in events && e.event.Contentious? && e.height > height && SpentOut(e) !in claimable ==>
      InputLocktime(e.event.package.inputs[0].1) > height
  }

  ghost predicate High(s: State, height: int) {
    HighQueue(s.locktimed, height) && HighEvents(s.events, s.claimable, height)
  }

  // The locktimes of all requests, and of what was split off them above `height`, are within `bound`.
  ghost predicate Ripe(s: State, bound: int, height: int) {
    && (forall id :: id in s.pending ==> PackageLocktime(s.pending[id], 0) <= bound)
    && (forall e :: e in s.events && e.event.Contentious? && e.height > height && SpentOut(e) in s.claimable ==>
          InputLocktime(e.event.package.inputs[0].1) <= bound)
  }

  // From `s` to `t` only spends above `height` were seen: links and older events are untouched,
  // requests only lose outpoints, and no outpoint is lost or invented.
  ghost predicate Spending(s: State, t: State, height: int) {
    && t.claimable == s.claimable
    && t.pending.Keys == s.pending.Keys
    && (forall id :: id in s.pending ==> Outs(t.pending[id].inputs) <= Outs(s.pending[id].inputs))
    && Below(t.events, height) == Below(s.events, height)
    && SameAccounts(s, t, height)
    && (High(s, height) ==> High(t, height))
    && (forall bound :: Ripe(s, bound, height) ==> Ripe(t, bound, height))
  }

  ghost predicate Spent(s: State, t: State, at: nat, height: int) {
    Spending(s, t, height) && forall e :: e in t.events ==> e in s.events || e.height == at
  }

  lemma SpendingTrans(s: State, t: State, u: State, height: int)
    requires Spending(s, t, height) && Spending(t, u, height)
    ensures Spending(s, u, height)
  {
  }

  lemma SpentTrans(s: State, t: State, u: State, at: nat, height: int)
    requires Spent(s, t, at, height) && Spent(t, u, at, height)
    ensures Spent(s, u, at, height)
  {
  }

  lemma SpentKeepsAssumptions(s: State, t: State, tx: Tx, at: nat, height: int)
    requires Spent(s, t, at, height) && EventsUpTo(s.events, at) && NoRespend(s, tx, at)
    ensures EventsUpTo(t.events, at) && NoRespend(t, tx, at)
  {
  }

  lemma {:induction false} BelowConcat(a: seq<Entry>, b: seq<Entry>, height: int)
    ensures Below(a + b, height) == Below(a, height) + Below(b, height)
  {
    if b == [] {
      assert a + b == a;
    } else {
      var n := |b| - 1;
      assert (a + b)[..|a| + n] == a + b[..n];
      BelowConcat(a, b[..n], height);
    }
  }

  lemma {:induction false} BelowNothing(a: seq<Entry>, height: int)
    requires forall e :: e in a ==> e.height > height
    ensures Below(a, height) == []
  {
    if a != [] {
      BelowNothing(a[..|a| - 1], height);
    }
  }

  // ---- Pieces waiting to be recorded ----

  function PieceEntry(tx: Tx, at: nat, hash: nat, p: Piece): Entry {
    Entry(tx.txid, at, hash, Contentious(p))
  }

  ghost function PieceEntries(pieces: seq<Piece>, tx: Tx, at: nat, hash: nat): seq<Entry> {
    seq(|pieces|, i requires 0 <= i < |pieces| => PieceEntry(tx, at, hash, pieces[i]))
  }

  // The state with the pieces of the transaction under scan already recorded.
  ghost function WithPieces(s: State, pieces: seq<Piece>, tx: Tx, at: nat, hash: nat): State {
    s.(events := s.events + PieceEntries(pieces, tx, at, hash))
  }

  lemma {:induction false} RecordPiecesMembers(events: seq<Entry>, pieces: seq<Piece>, tx: Tx, at: nat, hash: nat)
    ensures forall e :: e in RecordPieces(events, pieces, tx, at, hash)
                        <==> e in events || e in PieceEntries(pieces, tx, at, hash)
    decreases pieces
  {
    if pieces != [] {
      var e := PieceEntry(tx, at, hash, pieces[0]);
      RecordPiecesMembers(Record(events, e), pieces[1..], tx, at, hash);
      assert PieceEntries(pieces, tx, at, hash) == [e] + PieceEntries(pieces[1..], tx, at, hash);
    }
  }

  lemma {:induction false} RecordPiecesBelow(events: seq<Entry>, pieces: seq<Piece>, tx: Tx, at: nat, hash: nat,
                                             height: int)
    requires height < at
    ensures Below(RecordPieces(events, pieces, tx, at, hash), height) == Below(events, height)
    decreases pieces
  {
    if pieces != [] {
      var e := PieceEntry(tx, at, hash, pieces[0]);
      RecordPiecesBelow(Record(events, e), pieces[1..], tx, at, hash, height);
      RecordBelow(events, e, height);
    }
  }

  lemma RecordBelow(events: seq<Entry>, e: Entry, height: int)
    requires height < e.height
    ensures Below(Record(events, e), height) == Below(events, height)
  {
    BelowConcat(events, [e], height);
    BelowNothing([e], height);
  }

  // States with the same requests, links, queue and event members count as the same.
  lemma AlikeSpent(s: State, t: State, at: nat, height: int)
    requires Alike(s, t) && Below(s.events, height) == Below(t.events, height)
    ensures Spent(s, t, at, height)
  {
    hide SameAccounts, Ripe, HighQueue, HighEvents, KindOf, Below;
    AlikeAccounts(s, t, height);
    AlikeHigh(s.events, t.events, s.claimable, height);
    forall bound | Ripe(s, bound, height) ensures Ripe(t, bound, height) {
      AlikeRipe(s, t, bound, height);
    }
  }

  lemma AlikeAccounts(s: State, t: State, height: int)
    requires Alike(s, t)
    ensures SameAccounts(s, t, height)
  {
    hide QueueBag, ContestedAbove, KindOf;
    MembersContest(s.events, t.events, height);
    MembersContest(t.events, s.events, height);
    assert ContestedAbove(s.events, height) == ContestedAbove(t.events, height);
  }

  lemma AlikeHigh(a: seq<Entry>, b: seq<Entry>, claimable: Links, height: int)
    requires forall e :: e in a <==> e in b
    ensures HighEvents(a, claimable, height) <==> HighEvents(b, claimable, height)
  {
    hide InputLocktime;
  }

  lemma AlikeRipe(s: State, t: State, bound: int, height: int)
    requires Alike(s, t) && Ripe(s, bound, height)
    ensures Ripe(t, bound, height)
  {
    hide InputLocktime, KindOf;
  }

  // ---- One more event ----

  lemma PushHigh(events: seq<Entry>, e: Entry, claimable: Links, height: int)
    requires HighEvents(events, claimable, height)
    requires e.event.Contentious? && SpentOut(e) !in claimable ==> InputLocktime(e.event.package.inputs[0].1) > height
    ensures HighEvents(events + [e], claimable, height)
  {
    hide InputLocktime;
  }

  lemma PushRipe(s: State, t: State, e: Entry, bound: int, height: int)
    requires Ripe(s, bound, height) && t.claimable == s.claimable && t.events == s.events + [e]
    requires t.pending.Keys == s.pending.Keys
    requires forall id :: id in s.pending ==> PackageLocktime(t.pending[id], 0) <= PackageLocktime(s.pending[id], 0)
    requires e.event.Contentious? && SpentOut(e) in s.claimable ==> InputLocktime(e.event.package.inputs[0].1) <= bound
    ensures Ripe(t, bound, height)
  {
    hide InputLocktime, PackageLocktime;
  }

  // ---- One input against its request ----

  lemma MovedOutSpent(s: State, id: ClaimId, o: OutPoint, e: Entry, height: int)
    requires Inv(s) && CanMoveOut(s, id, o, e) && height < e.height
    ensures Spent(s, MovedOut(s, id, o, e), e.height, height)
  {
    hide Live, QueueApart, Records, SameHeight, FormedQueue, QueueBag, Below, Accounted, ContestedAbove, HighQueue,
      HighEvents, Ripe, PackageLocktime, InputLocktime, WellFormed, SplitPiece, SplitRest;
    var t := MovedOut(s, id, o, e);
    var p, rest := s.pending[id], SplitRest(s.pending[id], o);
    SplitTakesOne(p, o);
    SplitLeavesRest(p, o);
    ContestedPush(s.events, e, height);
    assert s.claimable[o].0 == id;
    MovedOutAccounts(s.pending, s.claimable, QueueBag(s.locktimed), ContestedAbove(s.events, height), id, rest, o);
    BelowConcat(s.events, [e], height);
    BelowNothing([e], height);
    if HighEvents(s.events, s.claimable, height) { PushHigh(s.events, e, s.claimable, height); }
    forall bound | Ripe(s, bound, height) ensures Ripe(t, bound, height) {
      MovedOutRipe(s, id, o, e, bound, height);
    }
  }

  lemma MovedOutRipe(s: State, id: ClaimId, o: OutPoint, e: Entry, bound: int, height: int)
    requires CanMoveOut(s, id, o, e) && WellFormed(s.pending[id]) && Ripe(s, bound, height)
    ensures Ripe(MovedOut(s, id, o, e), bound, height)
  {
    hide PackageLocktime, InputLocktime, WellFormed, SplitPiece, SplitRest;
    var p := s.pending[id];
    SplitTakesOne(p, o);
    RestWithinPackage(p, o);
    InputWithinPackage(p, SplitPiece(p, o).value.inputs[0]);
    assert PackageLocktime(p, 0) <= bound;
    PushRipe(s, MovedOut(s, id, o, e), e, bound, height);
  }

  lemma MovedOutAccounts(pending: Requests, claimable: Links, queued: multiset<OutPoint>, contested: set<OutPoint>,
                         id: ClaimId, rest: Package, o: OutPoint)
    requires id in pending && Holds(pending[id], o) && o in claimable && claimable[o].0 == id
    requires Outs(rest.inputs) == Outs(pending[id].inputs) - {o}
    ensures forall x :: Accounted(pending, claimable, queued, contested, x)
                        <==> Accounted(pending[id := rest], claimable, queued, contested + {o}, x)
  {
  }

  // The scan state while the inputs of a transaction are being split off the request `id`.
  ghost function Partial(s: State, id: ClaimId, request: Package, pieces: seq<Piece>, tx: Tx, at: nat,
                         hash: nat): State {
    WithPieces(s.(pending := s.pending[id := request]), pieces, tx, at, hash)
  }

  lemma SplitOneSpent(s: State, id: ClaimId, request: Package, pieces: seq<Piece>, o: OutPoint,
                      tx: Tx, at: nat, hash: nat, height: int, left: OutPoint)
    requires height < at && id in s.pending
    requires Holds(request, left) && left != o && SplitPiece(request, o).Some?
    requires Inv(Partial(s, id, request, pieces, tx, at, hash))
    requires forall f :: f in s.events && f.event == Claimed(id) ==> at <= f.height
    ensures
      var rest, more := SplitRest(request, o), pieces + [SplitPiece(request, o).value];
      && Holds(rest, left)
      && Inv(Partial(s, id, rest, more, tx, at, hash))
      && Spent(Partial(s, id, request, pieces, tx, at, hash), Partial(s, id, rest, more, tx, at, hash), at, height)
  {
    hide Inv, Spent, SplitPiece, SplitRest;
    var before := Partial(s, id, request, pieces, tx, at, hash);
    var piece, rest := SplitPiece(request, o).value, SplitRest(request, o);
    var e := PieceEntry(tx, at, hash, piece);
    PartialMovesOut(s, id, request, pieces, o, tx, at, hash, left);
    assert PieceEntries(pieces + [piece], tx, at, hash) == PieceEntries(pieces, tx, at, hash) + [e];
    assert before.pending[id := rest] == s.pending[id := rest];
    assert Partial(s, id, rest, pieces + [piece], tx, at, hash) == MovedOut(before, id, o, e);
    MovedOutKeepsInv(before, id, o, e);
    MovedOutSpent(before, id, o, e, height);
  }

  lemma PartialMovesOut(s: State, id: ClaimId, request: Package, pieces: seq<Piece>, o: OutPoint,
                        tx: Tx, at: nat, hash: nat, left: OutPoint)
    requires id in s.pending && Holds(request, left) && left != o && SplitPiece(request, o).Some?
    requires Inv(Partial(s, id, request, pieces, tx, at, hash))
    requires forall f :: f in s.events && f.event == Claimed(id) ==> at <= f.height
    ensures Holds(SplitRest(request, o), left)
    ensures CanMoveOut(Partial(s, id, request, pieces, tx, at, hash), id, o,
                       PieceEntry(tx, at, hash, SplitPiece(request, o).value))
  {
    hide Places, Records, FormedQueue, WellFormed, SplitPiece, SplitRest;
    var before := Partial(s, id, request, pieces, tx, at, hash);
    assert before.pending[id] == request;
    SplitLeavesRest(request, o);
    forall f | f in before.events && f.event == Claimed(id) ensures at <= f.height {
      assert f !in PieceEntries(pieces, tx, at, hash);
    }
  }

  // Splitting all of a transaction's inputs off a request that it does not cover.
  lemma {:induction false} SplitInputsSpent(s: State, id: ClaimId, request: Package, pieces: seq<Piece>,
                                            os: seq<OutPoint>,
                                            tx: Tx, at: nat, hash: nat, height: int, left: OutPoint)
    requires height < at && id in s.pending
    requires Holds(request, left) && left !in os
    requires Inv(Partial(s, id, request, pieces, tx, at, hash))
    requires forall f :: f in s.events && f.event == Claimed(id) ==> at <= f.height
    ensures
      var (rest, events, more) := SplitInputs(request, s.events, pieces, os, Entry(tx.txid, at, hash, Claimed(id)));
      && events == s.events
      && Inv(Partial(s, id, rest, more, tx, at, hash))
      && Spent(Partial(s, id, request, pieces, tx, at, hash), Partial(s, id, rest, more, tx, at, hash), at, height)
    decreases os
  {
    hide Places, Records, FormedQueue, Spent;
    var before := Partial(s, id, request, pieces, tx, at, hash);
    if os == [] {
      AlikeSpent(before, before, at, height);
    } else {
      assert before.pending[id] == request;
      SplitLeavesRest(request, os[0]);
      var rest := SplitRest(request, os[0]);
      match SplitPiece(request, os[0])
      case None =>
        SplitInputsSpent(s, id, request, pieces, os[1..], tx, at, hash, height, left);
      case Some(piece) =>
        SplitOneSpent(s, id, request, pieces, os[0], tx, at, hash, height, left);
        SplitInputsSpent(s, id, rest, pieces + [piece], os[1..], tx, at, hash, height, left);
        var (r, events, more) := SplitInputs(request, s.events, pieces, os, Entry(tx.txid, at, hash, Claimed(id)));
        SpentTrans(before, Partial(s, id, rest, pieces + [piece], tx, at, hash),
                   Partial(s, id, r, more, tx, at, hash), at, height);
    }
  }

  // ---- One input ----

  ghost function ScanState(c: Scan, tx: Tx, at: nat, hash: nat): State {
    WithPieces(c.s, c.pieces, tx, at, hash)
  }

  // An input never runs into a claim that is not pending, and only moves outpoints.
  lemma SpendRequestSpent(c: Scan, tx: Tx, o: OutPoint, at: nat, hash: nat, height: int)
    requires height < at && o in tx.inputs
    requires Inv(ScanState(c, tx, at, hash))
    requires EventsUpTo(c.s.events, at) && NoRespend(c.s, tx, at)
    ensures
      var d := SpendRequest(c, tx, o, at, hash);
      && d.Some?
      && Inv(ScanState(d.value, tx, at, hash))
      && Spent(ScanState(c, tx, at, hash), ScanState(d.value, tx, at, hash), at, height)
  {
    hide Inv, Spent, CoveredBy, SplitInputs, EventsUpTo, NoRespend;
    var before := ScanState(c, tx, at, hash);
    if o !in c.s.claimable {
      AlikeSpent(before, before, at, height);
    } else {
      var id := c.s.claimable[o].0;
      LivePending(before, o);
      if CoveredBy(c.s.pending[id], tx) {
        ClaimConfirmedSpent(c, tx, id, at, hash, height);
      } else {
        NotCoveredSpent(c, tx, id, at, hash, height);
      }
    }
  }

  lemma NotCoveredSpent(c: Scan, tx: Tx, id: ClaimId, at: nat, hash: nat, height: int)
    requires height < at && id in c.s.pending && !CoveredBy(c.s.pending[id], tx)
    requires Inv(ScanState(c, tx, at, hash))
    requires EventsUpTo(c.s.events, at) && NoRespend(c.s, tx, at)
    ensures
      var request := c.s.pending[id];
      var (rest, events, pieces) :=
        SplitInputs(request, c.s.events, c.pieces, tx.inputs, Entry(tx.txid, at, hash, Claimed(id)));
      && var d := Scan(c.s.(pending := c.s.pending[id := rest], events := events), pieces, c.bumps);
      && Inv(ScanState(d, tx, at, hash))
      && Spent(ScanState(c, tx, at, hash), ScanState(d, tx, at, hash), at, height)
  {
    hide Inv, Spent, SplitInputs;
    var request, before := c.s.pending[id], ScanState(c, tx, at, hash);
    var i :| 0 <= i < |request.inputs| && request.inputs[i].0 !in tx.inputs;
    OutsAreIndices(request.inputs);
    assert c.s.pending[id := request] == c.s.pending;
    if f :| f in c.s.events && f.event == Claimed(id) && f.height < at {
      SplitInputsNothing(request, c.s.events, c.pieces, tx.inputs, Entry(tx.txid, at, hash, Claimed(id)));
      AlikeSpent(before, before, at, height);
    } else {
      SplitInputsSpent(c.s, id, request, c.pieces, tx.inputs, tx, at, hash, height, request.inputs[i].0);
    }
  }

  lemma LivePending(s: State, o: OutPoint)
    requires Inv(s) && o in s.claimable
    ensures s.claimable[o].0 in s.pending
  {
  }

  lemma {:induction false} SplitInputsNothing(request: Package, events: seq<Entry>, pieces: seq<Piece>,
                                              os: seq<OutPoint>,
                                              claimed: Entry)
    requires request.inputs != []
    requires forall o :: o in os ==> !Holds(request, o)
    ensures SplitInputs(request, events, pieces, os, claimed) == (request, events, pieces)
  {
    if os != [] {
      assert !Holds(request, os[0]);
      FindLastIs(request.inputs, os[0]);
      WithoutNothing(request.inputs, os[0]);
      SplitInputsNothing(request, events, pieces, os[1..], claimed);
    }
  }

  lemma ConfirmedSpent(s: State, e: Entry, height: int)
    requires e.event.Claimed? && height < e.height
    ensures Spent(s, s.(events := s.events + [e]), e.height, height)
  {
    hide Accounted, HighQueue, QueueBag, PackageLocktime, ContestedAbove, Below, Ripe, HighEvents;
    var t := s.(events := s.events + [e]);
    ContestedPush(s.events, e, height);
    assert ContestedAbove(s.events, height) + {} == ContestedAbove(s.events, height);
    BelowConcat(s.events, [e], height);
    BelowNothing([e], height);
    if HighEvents(s.events, s.claimable, height) { PushHigh(s.events, e, s.claimable, height); }
    forall bound | Ripe(s, bound, height) ensures Ripe(t, bound, height) {
      PushRipe(s, t, e, bound, height);
    }
  }

  lemma ClaimConfirmedSpent(c: Scan, tx: Tx, id: ClaimId, at: nat, hash: nat, height: int)
    requires height < at
    requires Inv(ScanState(c, tx, at, hash)) && EventsUpTo(c.s.events, at)
    ensures
      var d := c.(s := c.s.(events := Record(c.s.events, Entry(tx.txid, at, hash, Claimed(id)))));
      && Inv(ScanState(d, tx, at, hash))
      && Spent(ScanState(c, tx, at, hash), ScanState(d, tx, at, hash), at, height)
  {
    hide Places, Records, FormedQueue, FormedRequests, Spent;
    var e := Entry(tx.txid, at, hash, Claimed(id));
    var before := ScanState(c, tx, at, hash);
    var d := c.(s := c.s.(events := Record(c.s.events, e)));
    var middle, after := before.(events := before.events + [e]), ScanState(d, tx, at, hash);
    ConfirmedKeepsInv(before, e);
    AlikeKeepsInv(middle, after);
    ConfirmedSpent(before, e, height);
    RecordBelow(c.s.events, e, height);
    BelowConcat(c.s.events, PieceEntries(c.pieces, tx, at, hash), height);
    BelowConcat(d.s.events, PieceEntries(c.pieces, tx, at, hash), height);
    BelowConcat(before.events, [e], height);
    BelowNothing([e], height);
    AlikeSpent(middle, after, at, height);
    SpentTrans(before, middle, after, at, height);
  }

  // ---- One input against the timelock queue ----

  ghost predicate GoodPieces(pieces: seq<Piece>, o: OutPoint) {
    forall p :: p in pieces ==> p.inputs[0].0 == o && WellFormed(p) && p.malleability.Malleable?
  }

  lemma SplitPackageCount(p: Package, o: OutPoint, x: OutPoint)
    requires WellFormed(p)
    ensures Bag(p.inputs)[x] ==
            Bag(SplitRest(p, o).inputs)[x] + (if x == o && SplitPiece(p, o).Some? then 1 else 0)
  {
    SplitTakesOne(p, o);
    SplitLeavesRest(p, o);
    BagOuts(p.inputs);
    if SplitPiece(p, o).Some? {
      WithoutBag(p.inputs, o);
    }
  }

  lemma GroupBagFirst(ps: seq<Package>, x: OutPoint)
    requires ps != []
    ensures GroupBag(ps)[x] == Bag(ps[0].inputs)[x] + GroupBag(ps[1..])[x]
  {
  }

  lemma GroupBagFront(p: Package, ps: seq<Package>, x: OutPoint)
    ensures GroupBag((if p.inputs == [] then [] else [p]) + ps)[x] == Bag(p.inputs)[x] + GroupBag(ps)[x]
  {
    hide GroupBag;
    if p.inputs == [] {
      assert [] + ps == ps;
      assert Bag(p.inputs) == multiset{};
    } else {
      assert ([p] + ps)[1..] == ps;
      GroupBagFirst([p] + ps, x);
    }
  }

  lemma {:induction false} SplitPackagesCount(ps: seq<Package>, o: OutPoint, x: OutPoint)
    requires FormedGroup(ps)
    ensures var (kept, pieces) := SplitPackages(ps, o);
            GroupBag(ps)[x] == GroupBag(kept)[x] + (if x == o then |pieces| else 0)
  {
    hide GroupBag, Bag, WellFormed, SplitRest, SplitPiece;
    if ps == [] {
      assert SplitPackages(ps, o) == ([], []);
    } else {
      SplitPackagesCount(ps[1..], o, x);
      SplitPackageCount(ps[0], o, x);
      GroupBagFirst(ps, x);
      GroupBagFront(SplitRest(ps[0], o), SplitPackages(ps[1..], o).0, x);
    }
  }

  lemma {:induction false} SplitPackagesFormed(ps: seq<Package>, o: OutPoint)
    requires FormedGroup(ps)
    ensures var (kept, pieces) := SplitPackages(ps, o); FormedGroup(kept) && GoodPieces(pieces, o)
  {
    if ps != [] {
      SplitPackagesFormed(ps[1..], o);
      SplitTakesOne(ps[0], o);
      if SplitRest(ps[0], o).inputs != [] {
        SplitRestFormed(ps[0], o);
      }
    }
  }

  lemma QueueBagFirst(q: Queue, x: OutPoint)
    requires q != []
    ensures QueueBag(q)[x] == GroupBag(q[0].1)[x] + QueueBag(q[1..])[x]
  {
  }

  lemma QueueBagFront(key: nat, kept: seq<Package>, q: Queue, x: OutPoint)
    ensures QueueBag((if kept == [] then [] else [(key, kept)]) + q)[x] == GroupBag(kept)[x] + QueueBag(q)[x]
  {
    hide QueueBag;
    if kept == [] {
      assert [] + q == q;
      assert GroupBag(kept) == multiset{};
    } else {
      assert ([(key, kept)] + q)[1..] == q;
      QueueBagFirst([(key, kept)] + q, x);
    }
  }

  lemma FormedQueueFirst(q: Queue)
    requires q != [] && FormedQueue(q)
    ensures FormedGroup(q[0].1) && LevelGroup(q[0].1, q[0].0) && FormedQueue(q[1..])
  {
    hide FormedGroup, LevelGroup;
  }

  lemma FormedQueueFront(key: nat, kept: seq<Package>, q: Queue)
    requires FormedGroup(kept) && LevelGroup(kept, key) && FormedQueue(q)
    ensures FormedQueue((if kept == [] then [] else [(key, kept)]) + q)
  {
    hide FormedGroup, LevelGroup;
  }

  lemma {:induction false} SplitQueueCount(q: Queue, o: OutPoint, x: OutPoint)
    requires FormedQueue(q)
    ensures var (kept, pieces) := SplitQueue(q, o);
            QueueBag(q)[x] == QueueBag(kept)[x] + (if x == o then |pieces| else 0)
  {
    hide FormedGroup, LevelGroup, SplitPackages, GroupBag, QueueBag, FormedQueue;
    if q == [] {
      assert SplitQueue(q, o) == ([], []);
    } else {
      FormedQueueFirst(q);
      SplitQueueCount(q[1..], o, x);
      SplitPackagesCount(q[0].1, o, x);
      QueueBagFirst(q, x);
      QueueBagFront(q[0].0, SplitPackages(q[0].1, o).0, SplitQueue(q[1..], o).0, x);
    }
  }

  lemma {:induction false} SplitPackagesHigh(ps: seq<Package>, o: OutPoint, height: int)
    requires FormedGroup(ps) && HighGroup(ps, height)
    ensures var (kept, pieces) := SplitPackages(ps, o);
            HighGroup(kept, height) && forall p :: p in pieces ==> InputLocktime(p.inputs[0].1) > height
  {
    if ps != [] {
      SplitPackagesHigh(ps[1..], o, height);
      SplitTakesOne(ps[0], o);
      SplitLeavesRest(ps[0], o);
    }
  }

  lemma {:induction false} SplitQueueHigh(q: Queue, o: OutPoint, height: int)
    requires FormedQueue(q) && HighQueue(q, height)
    ensures var (kept, pieces) := SplitQueue(q, o);
            HighQueue(kept, height) && forall p :: p in pieces ==> InputLocktime(p.inputs[0].1) > height
  {
    if q != [] {
      SplitQueueHigh(q[1..], o, height);
      SplitPackagesHigh(q[0].1, o, height);
    }
  }

  lemma {:induction false} SplitPackagesLevel(ps: seq<Package>, o: OutPoint, key: nat)
    requires FormedGroup(ps) && LevelGroup(ps, key)
    ensures LevelGroup(SplitPackages(ps, o).0, key)
  {
    if ps != [] {
      SplitPackagesLevel(ps[1..], o, key);
      SplitLeavesRest(ps[0], o);
    }
  }

  lemma {:induction false} SplitQueueFormed(q: Queue, o: OutPoint)
    requires FormedQueue(q)
    ensures var (kept, pieces) := SplitQueue(q, o); FormedQueue(kept) && GoodPieces(pieces, o)
  {
    hide FormedQueue, FormedGroup, LevelGroup, SplitPackages, WellFormed;
    if q == [] {
      NothingFormed();
    } else {
      FormedQueueFirst(q);
      SplitQueueFormed(q[1..], o);
      SplitPackagesFormed(q[0].1, o);
      SplitPackagesLevel(q[0].1, o, q[0].0);
      FormedQueueFront(q[0].0, SplitPackages(q[0].1, o).0, SplitQueue(q[1..], o).0);
    }
  }

  lemma NothingFormed()
    ensures FormedQueue([])
  {
  }

  lemma SpendQueuedSpent(c: Scan, tx: Tx, o: OutPoint, at: nat, hash: nat, height: int)
    requires height < at
    requires Inv(ScanState(c, tx, at, hash))
    ensures
      var d := SpendQueued(c, o);
      && Inv(ScanState(d, tx, at, hash))
      && Spent(ScanState(c, tx, at, hash), ScanState(d, tx, at, hash), at, height)
  {
    hide Places, Records, Spent, FormedQueue, FormedRequests, QueueBag, WellFormed, HighQueue;
    var before, after := ScanState(c, tx, at, hash), ScanState(SpendQueued(c, o), tx, at, hash);
    var (queue, pieces) := SplitQueue(c.s.locktimed, o);
    SplitQueueFormed(c.s.locktimed, o);
    SplitQueueCount(c.s.locktimed, o, o);
    forall x ensures QueueBag(c.s.locktimed)[x] == QueueBag(queue)[x] + (if x == o then |pieces| else 0) {
      SplitQueueCount(c.s.locktimed, o, x);
    }
    if HighQueue(c.s.locktimed, height) { SplitQueueHigh(c.s.locktimed, o, height); }
    if pieces == [] {
      assert QueueBag(queue) == QueueBag(c.s.locktimed);
      assert c.pieces + pieces == c.pieces;
      QueueRegrouped(before, queue, at, height);
    } else {
      QueuedOnce(before, o);
      var e := PieceEntry(tx, at, hash, pieces[0]);
      assert pieces[0] in pieces;
      WithOneMore(c.s.(locktimed := queue), c.pieces, pieces, tx, at, hash);
      QueueMovedOut(before, queue, o, e, height);
    }
  }

  lemma WithOneMore(s: State, pieces: seq<Piece>, more: seq<Piece>, tx: Tx, at: nat, hash: nat)
    requires |more| == 1
    ensures
      var t := WithPieces(s, pieces, tx, at, hash);
      WithPieces(s, pieces + more, tx, at, hash) == t.(events := t.events + [PieceEntry(tx, at, hash, more[0])])
  {
    assert PieceEntries(pieces + more, tx, at, hash)
        == PieceEntries(pieces, tx, at, hash) + [PieceEntry(tx, at, hash, more[0])];
  }

  lemma QueuedOnce(s: State, o: OutPoint)
    requires Places(s)
    ensures QueueBag(s.locktimed)[o] <= 1
  {
  }

  lemma QueueRegrouped(s: State, queue: Queue, at: nat, height: int)
    requires Inv(s) && FormedQueue(queue) && QueueBag(queue) == QueueBag(s.locktimed)
    requires HighQueue(s.locktimed, height) ==> HighQueue(queue, height)
    ensures Inv(s.(locktimed := queue)) && Spent(s, s.(locktimed := queue), at, height)
  {
    hide Live, Owned, QueueApart, OneSpend, FormedEvents, Matching, Ordered, SameHeight, Accounted,
      FormedQueue, QueueBag, FormedRequests, HighQueue;
  }

  // One outpoint moves from the queue to a contentious event.
  lemma QueueMovedOut(s: State, queue: Queue, o: OutPoint, e: Entry, height: int)
    requires Inv(s) && FormedQueue(queue)
    requires e.event.Contentious? && SpentOut(e) == o && height < e.height
    requires WellFormed(e.event.package) && e.event.package.malleability.Malleable?
    requires o in QueueBag(s.locktimed)
    requires forall x :: QueueBag(s.locktimed)[x] == QueueBag(queue)[x] + (if x == o then 1 else 0)
    requires HighQueue(s.locktimed, height) ==>
               HighQueue(queue, height) && InputLocktime(e.event.package.inputs[0].1) > height
    ensures
      var t := s.(locktimed := queue, events := s.events + [e]);
      Inv(t) && Spent(s, t, e.height, height)
  {
    hide OneSpend, FormedEvents, Matching, Ordered, SameHeight, QueueBag, FormedQueue, WellFormed, FormedRequests,
      HighQueue,
      InputLocktime, Spent;
    assert o !in s.claimable && o !in Contested(s.events);
    ContestedPush(s.events, e, -1);
    QueueMovedPlaces(s, QueueBag(queue), o);
    NewSpend(s.events, e);
    NewSpendElsewhere(s, e);
    QueueMovedSpent(s, queue, o, e, height);
  }

  lemma QueueMovedSpent(s: State, queue: Queue, o: OutPoint, e: Entry, height: int)
    requires e.event.Contentious? && SpentOut(e) == o && height < e.height && o !in s.claimable
    requires forall x :: QueueBag(s.locktimed)[x] == QueueBag(queue)[x] + (if x == o then 1 else 0)
    requires HighQueue(s.locktimed, height) ==>
               HighQueue(queue, height) && InputLocktime(e.event.package.inputs[0].1) > height
    ensures Spent(s, s.(locktimed := queue, events := s.events + [e]), e.height, height)
  {
    hide QueueBag, HighQueue, Accounted, PackageLocktime, InputLocktime, ContestedAbove, Below, Ripe, HighEvents;
    var t := s.(locktimed := queue, events := s.events + [e]);
    if High(s, height) { PushHigh(s.events, e, s.claimable, height); }
    forall bound | Ripe(s, bound, height) ensures Ripe(t, bound, height) {
      PushRipe(s, t, e, bound, height);
    }
    ContestedPush(s.events, e, height);
    QueueMovedAccounts(s, QueueBag(queue), ContestedAbove(s.events, height), o);
    BelowConcat(s.events, [e], height);
    BelowNothing([e], height);
  }

  lemma QueueMovedPlaces(s: State, queued: multiset<OutPoint>, o: OutPoint)
    requires Places(s) && o in QueueBag(s.locktimed)
    requires forall x :: QueueBag(s.locktimed)[x] == queued[x] + (if x == o then 1 else 0)
    ensures var contested := Contested(s.events) + {o};
            && Live(s.pending, s.claimable, contested)
            && Owned(s.pending, s.claimable, contested)
            && QueueApart(queued, s.claimable, contested)
  {
    hide QueueBag;
    forall x | x in queued ensures x !in s.claimable && x !in Contested(s.events) + {o} && queued[x] == 1 {
      assert QueueBag(s.locktimed)[x] == queued[x] + (if x == o then 1 else 0);
      assert x in QueueBag(s.locktimed);
    }
  }

  lemma QueueMovedAccounts(s: State, queued: multiset<OutPoint>, contested: set<OutPoint>, o: OutPoint)
    requires forall x :: QueueBag(s.locktimed)[x] == queued[x] + (if x == o then 1 else 0)
    ensures forall x :: Accounted(s.pending, s.claimable, QueueBag(s.locktimed), contested, x)
                        <==> Accounted(s.pending, s.claimable, queued, contested + {o}, x)
  {
    hide QueueBag;
    forall x ensures x in QueueBag(s.locktimed) <==> x in queued || x == o {
      assert QueueBag(s.locktimed)[x] == queued[x] + (if x == o then 1 else 0);
    }
  }

  // A spend of an outpoint that no request tracks leaves the requests' records as they were.
  lemma NewSpendElsewhere(s: State, e: Entry)
    requires e.event.Contentious? && SpentOut(e) !in s.claimable
    requires Matching(s.pending, s.claimable, s.events) && Ordered(s.claimable, s.events)
    ensures Matching(s.pending, s.claimable, s.events + [e]) && Ordered(s.claimable, s.events + [e])
  {
    assert forall f :: f in s.events + [e] <==> f in s.events || f == e;
  }

  // ---- Whole transactions ----

  lemma {:induction false} SpendInputsSpent(c: Scan, tx: Tx, os: seq<OutPoint>, at: nat, hash: nat, height: int)
    requires height < at && forall o :: o in os ==> o in tx.inputs
    requires Inv(ScanState(c, tx, at, hash))
    requires EventsUpTo(ScanState(c, tx, at, hash).events, at) && NoRespend(ScanState(c, tx, at, hash), tx, at)
    ensures
      var d := SpendInputs(c, tx, os, at, hash);
      && d.Some?
      && Inv(ScanState(d.value, tx, at, hash))
      && Spent(ScanState(c, tx, at, hash), ScanState(d.value, tx, at, hash), at, height)
    decreases os
  {
    hide Places, Records, FormedQueue, FormedRequests, Spent, SpendRequest, SpendQueued, EventsUpTo, NoRespend;
    var before := ScanState(c, tx, at, hash);
    if os == [] {
      AlikeSpent(before, before, at, height);
    } else {
      assert os[0] in os;
      ScanAssumptions(c, tx, at, hash);
      SpendRequestSpent(c, tx, os[0], at, hash, height);
      var d := SpendRequest(c, tx, os[0], at, hash).value;
      SpendQueuedSpent(d, tx, os[0], at, hash, height);
      var e := SpendQueued(d, os[0]);
      SpentTrans(before, ScanState(d, tx, at, hash), ScanState(e, tx, at, hash), at, height);
      SpentKeepsAssumptions(before, ScanState(e, tx, at, hash), tx, at, height);
      SpendInputsSpent(e, tx, os[1..], at, hash, height);
      SpentTrans(before, ScanState(e, tx, at, hash),
                 ScanState(SpendInputs(c, tx, os, at, hash).value, tx, at, hash), at, height);
    }
  }

  lemma ScanAssumptions(c: Scan, tx: Tx, at: nat, hash: nat)
    requires EventsUpTo(ScanState(c, tx, at, hash).events, at) && NoRespend(ScanState(c, tx, at, hash), tx, at)
    ensures EventsUpTo(c.s.events, at) && NoRespend(c.s, tx, at)
  {
    assert forall e :: e in c.s.events ==> e in ScanState(c, tx, at, hash).events;
  }

  lemma SpendTxSpent(s: State, bumps: map<ClaimId, Package>, tx: Tx, at: nat, hash: nat, height: int)
    requires height < at && Inv(s) && EventsUpTo(s.events, at) && NoRespend(s, tx, at)
    ensures
      var r := SpendTx(s, bumps, tx, at, hash);
      r.Some? && Inv(r.value.0) && Spent(s, r.value.0, at, height)
  {
    hide Inv, Spent, EventsUpTo, NoRespend, Alike, Below, SpendInputs, RecordPieces, WithPieces;
    var c := Scan(s, [], bumps);
    NoPieces(s, tx, at, hash);
    SpendInputsSpent(c, tx, tx.inputs, at, hash, height);
    var d := SpendInputs(c, tx, tx.inputs, at, hash).value;
    var before, after := ScanState(d, tx, at, hash), SpendTx(s, bumps, tx, at, hash).value.0;
    RecordedAlike(d.s, d.pieces, tx, at, hash, height);
    AlikeKeepsInv(before, after);
    AlikeSpent(before, after, at, height);
    SpentTrans(s, before, after, at, height);
  }

  lemma NoPieces(s: State, tx: Tx, at: nat, hash: nat)
    ensures WithPieces(s, [], tx, at, hash) == s
  {
    assert PieceEntries([], tx, at, hash) == [];
    assert s.events + [] == s.events;
  }

  // Recording the pieces adds just their events.
  lemma RecordedAlike(s: State, pieces: seq<Piece>, tx: Tx, at: nat, hash: nat, height: int)
    requires height < at
    ensures
      var before, after := WithPieces(s, pieces, tx, at, hash),
        s.(events := RecordPieces(s.events, pieces, tx, at, hash));
      Alike(before, after) && Below(before.events, height) == Below(after.events, height)
  {
    hide RecordPieces, Below, KindOf;
    RecordPiecesMembers(s.events, pieces, tx, at, hash);
    RecordPiecesBelow(s.events, pieces, tx, at, hash, height);
    BelowConcat(s.events, PieceEntries(pieces, tx, at, hash), height);
    BelowNothing(PieceEntries(pieces, tx, at, hash), height);
  }

  lemma {:induction false} SpendTxsSpent(s: State, bumps: map<ClaimId, Package>, txs: seq<Tx>, at: nat, hash: nat,
                                         height: int)
    requires height < at && Inv(s) && EventsUpTo(s.events, at)
    requires forall tx :: tx in txs ==> NoRespend(s, tx, at)
    ensures
      var r := SpendTxs(s, bumps, txs, at, hash);
      r.Some? && Inv(r.value.0) && Spent(s, r.value.0, at, height)
    decreases txs
  {
    hide Places, Records, FormedQueue, FormedRequests, Spent, EventsUpTo, NoRespend, SpendTx;
    if txs == [] {
      AlikeSpent(s, s, at, height);
    } else {
      assert txs[0] in txs;
      SpendTxSpent(s, bumps, txs[0], at, hash, height);
      var r := SpendTx(s, bumps, txs[0], at, hash).value;
      SpentKeepsAssumptions(s, r.0, txs[0], at, height);
      forall tx | tx in txs[1..] ensures NoRespend(r.0, tx, at) {
        SpentKeepsAssumptions(s, r.0, tx, at, height);
      }
      SpendTxsSpent(r.0, r.1, txs[1..], at, hash, height);
      SpentTrans(s, r.0, SpendTxs(s, bumps, txs, at, hash).value.0, at, height);
    }
  }
}
