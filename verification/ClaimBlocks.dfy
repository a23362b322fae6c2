// What a block does to the tracker, said of its transactions: which outpoints each request and each
// timelocked package keeps, which events are recorded, what matures, and which claims are built anew.
module ClaimBlocks {
  import opened Common
  import opened Packages
  import opened ClaimState
  import opened ClaimInvariant
  import opened ClaimSpend

  // ---- What a transaction takes ----

  function Elems(os: seq<OutPoint>): set<OutPoint> {
    set o | o in os
  }

  function Ins(tx: Tx): set<OutPoint> {
    Elems(tx.inputs)
  }

  function InsOfAll(txs: seq<Tx>): set<OutPoint> {
    if txs == [] then {} else Ins(txs[0]) + InsOfAll(txs[1..])
  }

  // The inputs whose outpoints are not among `taken`.
  function Keeping(inputs: Inputs, taken: set<OutPoint>): Inputs {
    if inputs == [] then []
    else (if inputs[0].0 in taken then [] else [inputs[0]]) + Keeping(inputs[1..], taken)
  }

  // A package without what was spent of it; an untractable one stays whole.
  function Strip(p: Package, taken: set<OutPoint>): Package {
    if p.malleability.Untractable? then p else p.(inputs := Keeping(p.inputs, taken))
  }

  // A transaction that spends all outpoints of a request confirms its claim and takes none of them.
  function AfterTx(p: Package, tx: Tx): Package {
    if Outs(p.inputs) <= Ins(tx) then p else Strip(p, Ins(tx))
  }

  // What transactions leave of a request, one after the other.
  function AfterTxs(p: Package, txs: seq<Tx>): Package
    decreases txs
  {
    if txs == [] then p else AfterTxs(AfterTx(p, txs[0]), txs[1..])
  }

  // ---- Filtering ----

  lemma {:induction false} KeepingMembers(inputs: Inputs, taken: set<OutPoint>)
    ensures forall x :: x in Keeping(inputs, taken) <==> x in inputs && x.0 !in taken
    ensures |Keeping(inputs, taken)| <= |inputs|
    ensures |Keeping(inputs, taken)| == |inputs| ==> Keeping(inputs, taken) == inputs
  {
    if inputs != [] {
      KeepingMembers(inputs[1..], taken);
      assert inputs == [inputs[0]] + inputs[1..];
    }
  }

  lemma {:induction false} KeepingTwice(inputs: Inputs, a: set<OutPoint>, b: set<OutPoint>)
    ensures Keeping(Keeping(inputs, a), b) == Keeping(inputs, a + b)
  {
    if inputs != [] {
      KeepingTwice(inputs[1..], a, b);
      if inputs[0].0 !in a {
        assert Keeping(inputs, a)[1..] == Keeping(inputs[1..], a);
      } else {
        assert Keeping(inputs, a) == Keeping(inputs[1..], a);
      }
    }
  }

  lemma {:induction false} KeepingAll(inputs: Inputs, taken: set<OutPoint>)
    requires forall o :: o in Outs(inputs) ==> o !in taken
    ensures Keeping(inputs, taken) == inputs
  {
    if inputs != [] {
      KeepingAll(inputs[1..], taken);
    }
  }

  lemma {:induction false} WithoutIsKeeping(inputs: Inputs, o: OutPoint)
    ensures Without(inputs, o) == Keeping(inputs, {o})
  {
    if inputs != [] {
      WithoutIsKeeping(inputs[1..], o);
    }
  }

  lemma {:induction false} KeepingOuts(inputs: Inputs, taken: set<OutPoint>)
    ensures Outs(Keeping(inputs, taken)) == Outs(inputs) - taken
  {
    if inputs != [] {
      KeepingOuts(inputs[1..], taken);
      if inputs[0].0 !in taken {
        assert Keeping(inputs, taken)[1..] == Keeping(inputs[1..], taken);
      } else {
        assert Keeping(inputs, taken) == Keeping(inputs[1..], taken);
      }
    }
  }

  lemma StripTwice(p: Package, a: set<OutPoint>, b: set<OutPoint>)
    ensures Strip(Strip(p, a), b) == Strip(p, a + b)
  {
    KeepingTwice(p.inputs, a, b);
  }

  lemma StripNothing(p: Package)
    ensures Strip(p, {}) == p
  {
    KeepingAll(p.inputs, {});
  }

  lemma RestIsStrip(p: Package, o: OutPoint)
    ensures SplitRest(p, o) == Strip(p, {o})
  {
    WithoutIsKeeping(p.inputs, o);
  }

  lemma CoveredIs(p: Package, tx: Tx)
    ensures CoveredBy(p, tx) <==> Outs(p.inputs) <= Ins(tx)
  {
    OutsAreIndices(p.inputs);
    if Outs(p.inputs) <= Ins(tx) {
      forall i | 0 <= i < |p.inputs| ensures p.inputs[i].0 in tx.inputs {
        assert p.inputs[i].0 in Outs(p.inputs);
      }
    }
  }

  // ---- What is split off a package ----

  // One input of the package, split off it.
  ghost predicate PieceOf(p: Package, taken: set<OutPoint>, piece: Piece) {
    p.malleability.Malleable? && exists x :: x in p.inputs && x.0 in taken && piece == p.(inputs := [x])
  }

  lemma PieceIs(p: Package, o: OutPoint, piece: Piece)
    requires Distinct(p.inputs)
    ensures SplitPiece(p, o) == Some(piece) <==> PieceOf(p, {o}, piece)
  {
    hide Distinct;
    if SplitPiece(p, o) == Some(piece) {
      FindLastIs(p.inputs, o);
      var y := (o, FindLast(p.inputs, o).value);
      assert y in p.inputs && y.0 in {o} && piece == p.(inputs := [y]);
    }
    if PieceOf(p, {o}, piece) {
      var x :| x in p.inputs && x.0 in {o} && piece == p.(inputs := [x]);
      SplitsOff(p, x);
    }
  }

  lemma SplitsOff(p: Package, x: (OutPoint, Solving))
    requires Distinct(p.inputs) && p.malleability.Malleable? && x in p.inputs
    ensures SplitPiece(p, x.0) == Some(p.(inputs := [x]))
  {
    hide Distinct, FindLast;
    FindLastIs(p.inputs, x.0);
    InOuts(p.inputs, x);
    OneSolving(p.inputs, x, (x.0, FindLast(p.inputs, x.0).value));
  }

  lemma {:induction false} InOuts(inputs: Inputs, x: (OutPoint, Solving))
    requires x in inputs
    ensures x.0 in Outs(inputs)
  {
    if inputs[0] != x { InOuts(inputs[1..], x); }
  }

  // No two inputs of a package spend one outpoint.
  lemma OneSolving(inputs: Inputs, x: (OutPoint, Solving), y: (OutPoint, Solving))
    requires Distinct(inputs) && x in inputs && y in inputs && x.0 == y.0
    ensures x == y
  {
    var i :| 0 <= i < |inputs| && inputs[i] == x;
    var j :| 0 <= j < |inputs| && inputs[j] == y;
    if i < j { TwiceInBag(inputs, i, j); }
    if j < i { TwiceInBag(inputs, j, i); }
  }

  lemma TwiceInBag(inputs: Inputs, i: nat, j: nat)
    requires i < j < |inputs| && inputs[i].0 == inputs[j].0
    ensures Bag(inputs)[inputs[i].0] >= 2
  {
    var os := Outpoints(inputs);
    assert os == os[..i + 1] + os[i + 1..];
    assert os[..i + 1][i] == inputs[i].0;
    assert os[i + 1..][j - i - 1] == inputs[i].0;
    assert multiset(os) == multiset(os[..i + 1]) + multiset(os[i + 1..]);
  }

  lemma StripDistinct(p: Package, taken: set<OutPoint>)
    requires Distinct(p.inputs)
    ensures Distinct(Strip(p, taken).inputs)
  {
    KeepingBag(p.inputs, taken);
  }

  lemma {:induction false} KeepingBag(inputs: Inputs, taken: set<OutPoint>)
    ensures forall o :: Bag(Keeping(inputs, taken))[o] <= Bag(inputs)[o]
  {
    hide Bag;
    if inputs != [] {
      KeepingBag(inputs[1..], taken);
      BagCons(inputs);
      var kept := Keeping(inputs, taken);
      if inputs[0].0 !in taken {
        assert kept[1..] == Keeping(inputs[1..], taken);
        BagCons(kept);
      } else {
        assert kept == Keeping(inputs[1..], taken);
      }
    }
  }

  // Splitting outpoints off a package that is not emptied: what stays, and what comes off.
  lemma {:induction false} SplitInputsIs(p: Package, events: seq<Entry>, pieces: seq<Piece>, os: seq<OutPoint>,
                                         claimed: Entry)
    requires Distinct(p.inputs) && Strip(p, Elems(os)).inputs != []
    ensures
      var (rest, after, more) := SplitInputs(p, events, pieces, os, claimed);
      && rest == Strip(p, Elems(os)) && after == events
      && pieces <= more
      && (forall x :: x in more <==> x in pieces || PieceOf(p, Elems(os), x))
      && (|more| == |pieces| <==> rest == p)
    decreases os
  {
    hide Distinct, Strip, SplitPiece, SplitRest, PieceOf;
    if os == [] {
      assert Elems(os) == {};
      StripNothing(p);
      NothingOff(p);
    } else {
      var o, tail := os[0], os[1..];
      assert Elems(os) == {o} + Elems(tail);
      RestIsStrip(p, o);
      StripTwice(p, {o}, Elems(tail));
      StripDistinct(p, {o});
      StrippedNotEmpty(Strip(p, {o}), Elems(tail));
      PieceOffIs(p, o);
      var found := SplitPiece(p, o);
      SplitInputsIs(Strip(p, {o}), events, if found.None? then pieces else pieces + [found.value], tail, claimed);
      forall x ensures PieceOf(p, Elems(os), x) <==> PieceOf(p, {o}, x) || PieceOf(Strip(p, {o}), Elems(tail), x) {
        PieceOfEither(p, {o}, Elems(tail), x);
      }
      forall x ensures SplitPiece(p, o) == Some(x) <==> PieceOf(p, {o}, x) {
        PieceIs(p, o, x);
      }
      StrippedLess(p, {o}, Elems(tail));
    }
  }

  lemma NothingOff(p: Package)
    ensures forall x :: !PieceOf(p, {}, x)
  {
  }

  lemma StrippedNotEmpty(p: Package, taken: set<OutPoint>)
    requires Strip(p, taken).inputs != []
    ensures p.inputs != []
  {
    KeepingMembers(p.inputs, taken);
  }

  lemma PieceOffIs(p: Package, o: OutPoint)
    requires Distinct(p.inputs)
    ensures SplitPiece(p, o).None? <==> Strip(p, {o}) == p
  {
    FindLastIs(p.inputs, o);
    KeepingOuts(p.inputs, {o});
    if o !in Outs(p.inputs) { KeepingAll(p.inputs, {o}); }
  }

  lemma StrippedLess(p: Package, a: set<OutPoint>, b: set<OutPoint>)
    ensures Strip(Strip(p, a), b) == p <==> Strip(p, a) == p && Strip(Strip(p, a), b) == Strip(p, a)
  {
    KeepingMembers(p.inputs, a);
    KeepingMembers(Keeping(p.inputs, a), b);
  }

  lemma PieceOfEither(p: Package, a: set<OutPoint>, b: set<OutPoint>, piece: Piece)
    ensures PieceOf(p, a + b, piece) <==> PieceOf(p, a, piece) || PieceOf(Strip(p, a), b, piece)
  {
    KeepingMembers(p.inputs, a);
    if PieceOf(Strip(p, a), b, piece) {
      var x :| x in Strip(p, a).inputs && x.0 in b && piece == Strip(p, a).(inputs := [x]);
      assert piece == p.(inputs := [x]);
    }
    if PieceOf(p, a + b, piece) && !PieceOf(p, a, piece) {
      var x :| x in p.inputs && x.0 in a + b && piece == p.(inputs := [x]);
      assert x in Strip(p, a).inputs && piece == Strip(p, a).(inputs := [x]);
    }
  }

  // ---- One transaction against the requests ----

  // Requests are not empty and their outpoints link back to them.
  ghost predicate Owning(pending: Requests, claimable: Links) {
    forall id :: id in pending ==>
      WellFormed(pending[id]) && forall o :: Holds(pending[id], o) ==> o in claimable && claimable[o].0 == id
  }

  // Some input of the transaction is linked to the request.
  ghost predicate Touches(claimable: Links, os: seq<OutPoint>, id: ClaimId) {
    exists o :: o in os && o in claimable && claimable[o].0 == id
  }

  lemma AfterTxFormed(p: Package, tx: Tx)
    requires WellFormed(p)
    ensures WellFormed(AfterTx(p, tx)) && Outs(AfterTx(p, tx).inputs) <= Outs(p.inputs)
    ensures AfterTx(AfterTx(p, tx), tx) == AfterTx(p, tx)
    ensures AfterTx(p, tx) != p ==>
              && !(Outs(p.inputs) <= Ins(tx)) && !(Outs(AfterTx(p, tx).inputs) <= Ins(tx))
              && AfterTx(p, tx) == Strip(p, Ins(tx))
  {
    KeepingMembers(p.inputs, Ins(tx));
    KeepingOuts(p.inputs, Ins(tx));
    StripDistinct(p, Ins(tx));
    StripTwice(p, Ins(tx), Ins(tx));
    assert Ins(tx) + Ins(tx) == Ins(tx);
    if !(Outs(p.inputs) <= Ins(tx)) && p.malleability.Malleable? {
      var o :| o in Outs(p.inputs) && o !in Ins(tx);
      assert o in Outs(Keeping(p.inputs, Ins(tx)));
    }
  }

  // A piece of the request that the transaction takes without confirming the claim.
  ghost predicate TakenOff(p: Package, tx: Tx, piece: Piece) {
    !(Outs(p.inputs) <= Ins(tx)) && PieceOf(p, Ins(tx), piece)
  }

  // One input: its request loses all that the transaction spends of it.
  lemma SpendRequestIs(c: Scan, tx: Tx, o: OutPoint, at: nat, hash: nat)
    requires SpendRequest(c, tx, o, at, hash).Some?
    requires forall id :: id in c.s.pending ==> WellFormed(c.s.pending[id])
    ensures
      var d := SpendRequest(c, tx, o, at, hash).value;
      && d.s.claimable == c.s.claimable && d.s.locktimed == c.s.locktimed
      && if o !in c.s.claimable then d == c
         else
           var id := c.s.claimable[o].0;
           && id in c.s.pending
           && var p := c.s.pending[id];
           && d.s.pending == c.s.pending[id := AfterTx(p, tx)]
           && d.bumps == (if AfterTx(p, tx) == p then c.bumps else c.bumps[id := AfterTx(p, tx)])
           && d.s.events == (if Outs(p.inputs) <= Ins(tx) then
                               Record(c.s.events, Entry(tx.txid, at, hash, Claimed(id))) else c.s.events)
           && forall x :: x in d.pieces <==> x in c.pieces || TakenOff(p, tx, x)
  {
    hide SplitInputs, Record, CoveredBy, WellFormed, PieceOf, Strip;
    if o in c.s.claimable {
      var id := c.s.claimable[o].0;
      var p := c.s.pending[id];
      CoveredIs(p, tx);
      if !CoveredBy(p, tx) {
        NotCoveredIs(p, c.s.events, c.pieces, tx, Entry(tx.txid, at, hash, Claimed(id)));
      } else {
        assert c.s.pending[id := p] == c.s.pending;
      }
    }
  }

  lemma NotCoveredIs(p: Package, events: seq<Entry>, pieces: seq<Piece>, tx: Tx, claimed: Entry)
    requires WellFormed(p) && !(Outs(p.inputs) <= Ins(tx))
    ensures
      var (rest, after, more) := SplitInputs(p, events, pieces, tx.inputs, claimed);
      && rest == AfterTx(p, tx) && after == events
      && (forall x :: x in more <==> x in pieces || TakenOff(p, tx, x))
      && (|more| > |pieces| <==> rest != p)
  {
    hide SplitInputs;
    KeepingOuts(p.inputs, Ins(tx));
    var o :| o in Outs(p.inputs) && o !in Ins(tx);
    assert o in Outs(p.inputs) - Ins(tx);
    SplitInputsIs(p, events, pieces, tx.inputs, claimed);
  }

  // ---- One transaction against the timelock queue ----

  function StripGroup(ps: seq<Package>, taken: set<OutPoint>): seq<Package> {
    if ps == [] then []
    else
      var rest := Strip(ps[0], taken);
      (if rest.inputs == [] then [] else [rest]) + StripGroup(ps[1..], taken)
  }

  // The queue without what was spent of it; packages and groups that become empty go.
  function StripQueue(q: Queue, taken: set<OutPoint>): Queue {
    if q == [] then []
    else
      var kept := StripGroup(q[0].1, taken);
      (if kept == [] then [] else [(q[0].0, kept)]) + StripQueue(q[1..], taken)
  }

  ghost predicate GroupPiece(ps: seq<Package>, taken: set<OutPoint>, piece: Piece) {
    ps != [] && (PieceOf(ps[0], taken, piece) || GroupPiece(ps[1..], taken, piece))
  }

  // One input of a timelocked package, split off it.
  ghost predicate QueuePiece(q: Queue, taken: set<OutPoint>, piece: Piece) {
    q != [] && (GroupPiece(q[0].1, taken, piece) || QueuePiece(q[1..], taken, piece))
  }

  lemma {:induction false} SplitPackagesIs(ps: seq<Package>, o: OutPoint)
    requires FormedGroup(ps)
    ensures
      var (kept, pieces) := SplitPackages(ps, o);
      kept == StripGroup(ps, {o}) && forall x :: x in pieces <==> GroupPiece(ps, {o}, x)
  {
    hide Strip, SplitPiece, SplitRest, PieceOf;
    if ps != [] {
      assert WellFormed(ps[0]);
      SplitPackagesIs(ps[1..], o);
      RestIsStrip(ps[0], o);
      forall x ensures SplitPiece(ps[0], o) == Some(x) <==> PieceOf(ps[0], {o}, x) {
        PieceIs(ps[0], o, x);
      }
    }
  }

  ghost predicate FormedGroups(q: Queue) {
    forall i :: 0 <= i < |q| ==> FormedGroup(q[i].1)
  }

  lemma {:induction false} SplitQueueIs(q: Queue, o: OutPoint)
    requires FormedGroups(q)
    ensures
      var (kept, pieces) := SplitQueue(q, o);
      kept == StripQueue(q, {o}) && forall x :: x in pieces <==> QueuePiece(q, {o}, x)
  {
    hide FormedGroup, SplitPackages, StripGroup, GroupPiece;
    if q != [] {
      SplitQueueIs(q[1..], o);
      SplitPackagesIs(q[0].1, o);
    }
  }

  lemma {:induction false} StripGroupTwice(ps: seq<Package>, a: set<OutPoint>, b: set<OutPoint>)
    ensures StripGroup(StripGroup(ps, a), b) == StripGroup(ps, a + b)
  {
    hide Strip;
    if ps != [] {
      StripGroupTwice(ps[1..], a, b);
      StripTwice(ps[0], a, b);
      var rest, more := Strip(ps[0], a), StripGroup(ps[1..], a);
      if rest.inputs == [] {
        EmptyStays(rest, b);
        assert [] + more == more;
      } else {
        assert ([rest] + more)[1..] == more;
      }
    }
  }

  lemma EmptyStays(p: Package, taken: set<OutPoint>)
    requires p.inputs == []
    ensures Strip(p, taken).inputs == []
  {
  }

  lemma {:induction false} StripQueueTwice(q: Queue, a: set<OutPoint>, b: set<OutPoint>)
    ensures StripQueue(StripQueue(q, a), b) == StripQueue(q, a + b)
  {
    hide StripGroup;
    if q != [] {
      StripQueueTwice(q[1..], a, b);
      StripGroupTwice(q[0].1, a, b);
      var kept, more := StripGroup(q[0].1, a), StripQueue(q[1..], a);
      if kept == [] {
        NoGroupStays(b);
        assert [] + more == more;
      } else {
        assert ([(q[0].0, kept)] + more)[1..] == more;
      }
    }
  }

  lemma NoGroupStays(taken: set<OutPoint>)
    ensures StripGroup([], taken) == []
  {
  }

  lemma {:induction false} GroupPieceEither(ps: seq<Package>, a: set<OutPoint>, b: set<OutPoint>, x: Piece)
    ensures GroupPiece(ps, a + b, x) <==> GroupPiece(ps, a, x) || GroupPiece(StripGroup(ps, a), b, x)
  {
    hide Strip, PieceOf;
    if ps != [] {
      GroupPieceEither(ps[1..], a, b, x);
      PieceOfEither(ps[0], a, b, x);
      var rest, more := Strip(ps[0], a), StripGroup(ps[1..], a);
      if rest.inputs == [] {
        NoPieceOfNothing(rest, b, x);
        assert [] + more == more;
      } else {
        assert ([rest] + more)[1..] == more;
      }
    }
  }

  lemma NoPieceOfNothing(p: Package, taken: set<OutPoint>, x: Piece)
    requires p.inputs == []
    ensures !PieceOf(p, taken, x)
  {
  }

  lemma {:induction false} QueuePieceEither(q: Queue, a: set<OutPoint>, b: set<OutPoint>, x: Piece)
    ensures QueuePiece(q, a + b, x) <==> QueuePiece(q, a, x) || QueuePiece(StripQueue(q, a), b, x)
  {
    hide StripGroup, GroupPiece;
    if q != [] {
      QueuePieceEither(q[1..], a, b, x);
      GroupPieceEither(q[0].1, a, b, x);
      var kept, more := StripGroup(q[0].1, a), StripQueue(q[1..], a);
      if kept == [] {
        NoPieceOfNoGroup(b, x);
        assert [] + more == more;
      } else {
        assert ([(q[0].0, kept)] + more)[1..] == more;
      }
    }
  }

  lemma NoPieceOfNoGroup(taken: set<OutPoint>, x: Piece)
    ensures !GroupPiece([], taken, x)
  {
  }

  lemma {:induction false} QueuePieceNothing(q: Queue, x: Piece)
    ensures !QueuePiece(q, {}, x)
  {
    if q != [] {
      GroupPieceNothing(q[0].1, x);
      QueuePieceNothing(q[1..], x);
    }
  }

  lemma {:induction false} GroupPieceNothing(ps: seq<Package>, x: Piece)
    ensures !GroupPiece(ps, {}, x)
  {
    if ps != [] { GroupPieceNothing(ps[1..], x); }
  }

  lemma {:induction false} StripGroupFormed(ps: seq<Package>, taken: set<OutPoint>)
    requires FormedGroup(ps)
    ensures FormedGroup(StripGroup(ps, taken))
  {
    if ps != [] {
      assert WellFormed(ps[0]);
      StripGroupFormed(ps[1..], taken);
      StripDistinct(ps[0], taken);
      KeepingMembers(ps[0].inputs, taken);
    }
  }

  lemma {:induction false} StripQueueFormed(q: Queue, taken: set<OutPoint>)
    requires FormedGroups(q)
    ensures FormedGroups(StripQueue(q, taken))
  {
    hide FormedGroup, StripGroup;
    if q != [] {
      StripQueueFormed(q[1..], taken);
      StripGroupFormed(q[0].1, taken);
    }
  }

  // ---- All inputs of a transaction ----

  // What inputs linked to a request make of it.
  function AfterInputs(p: Package, tx: Tx, touched: bool): Package {
    if touched then AfterTx(p, tx) else p
  }

  // The claim of a request linked to one of the inputs is confirmed.
  ghost predicate Confirms(s: State, os: seq<OutPoint>, tx: Tx, id: ClaimId) {
    id in s.pending && Touches(s.claimable, os, id) && Outs(s.pending[id].inputs) <= Ins(tx)
  }

  ghost predicate Takes(s: State, os: seq<OutPoint>, tx: Tx, x: Piece) {
    exists id :: id in s.pending && Touches(s.claimable, os, id) && TakenOff(s.pending[id], tx, x)
  }

  // Requests only lose inputs, and the bump candidates gain just those that did, as they are now.
  ghost predicate Noted(was: Requests, now: Requests, before: Requests, after: Requests) {
    now.Keys == was.Keys && forall id :: NotedFor(was, now, before, after, id)
  }

  ghost predicate NotedFor(was: Requests, now: Requests, before: Requests, after: Requests, id: ClaimId)
    requires now.Keys == was.Keys
  {
    if id in was && was[id] != now[id] then
      |now[id].inputs| < |was[id].inputs| && id in after && after[id] == now[id]
    else (id in after <==> id in before) && (id in after ==> after[id] == before[id])
  }

  ghost predicate RequestsDone(s: State, now: Requests, tx: Tx, os: seq<OutPoint>) {
    && now.Keys == s.pending.Keys
    && forall id :: id in s.pending ==> now[id] == AfterInputs(s.pending[id], tx, Touches(s.claimable, os, id))
  }

  ghost predicate EventsDone(s: State, now: seq<Entry>, tx: Tx, os: seq<OutPoint>, at: nat, hash: nat) {
    forall e :: e in now <==>
      e in s.events || (e.event.Claimed? && e == Entry(tx.txid, at, hash, e.event) && Confirms(s, os, tx, e.event.id))
  }

  ghost predicate PiecesDone(c: Scan, now: seq<Piece>, tx: Tx, os: seq<OutPoint>) {
    forall x :: x in now <==> x in c.pieces || Takes(c.s, os, tx, x) || QueuePiece(c.s.locktimed, Elems(os), x)
  }

  ghost predicate InputsDone(c: Scan, d: Scan, tx: Tx, os: seq<OutPoint>, at: nat, hash: nat) {
    && d.s.claimable == c.s.claimable
    && RequestsDone(c.s, d.s.pending, tx, os)
    && Noted(c.s.pending, d.s.pending, c.bumps, d.bumps)
    && EventsDone(c.s, d.s.events, tx, os, at, hash)
    && PiecesDone(c, d.pieces, tx, os)
    && d.s.locktimed == if os == [] then c.s.locktimed else StripQueue(c.s.locktimed, Elems(os))
  }

  lemma NotedTrans(a: Requests, b: Requests, c: Requests, x: Requests, y: Requests, z: Requests)
    requires Noted(a, b, x, y) && Noted(b, c, y, z)
    ensures Noted(a, c, x, z)
  {
    forall id ensures NotedFor(a, c, x, z, id) {
      assert NotedFor(a, b, x, y, id) && NotedFor(b, c, y, z, id);
    }
  }

  lemma NothingNoted(a: Requests, x: Requests)
    ensures Noted(a, a, x, x)
  {
  }

  lemma OneNoted(a: Requests, x: Requests, id: ClaimId, p: Package)
    requires id in a && (p == a[id] || |p.inputs| < |a[id].inputs|)
    ensures Noted(a, a[id := p], x, if p == a[id] then x else x[id := p])
  {
  }

  lemma TouchesOne(claimable: Links, o: OutPoint, id: ClaimId)
    ensures Touches(claimable, [o], id) <==> o in claimable && claimable[o].0 == id
  {
    assert o in [o];
  }

  lemma TouchesEither(claimable: Links, os: seq<OutPoint>, id: ClaimId)
    requires os != []
    ensures Touches(claimable, os, id) <==> Touches(claimable, [os[0]], id) || Touches(claimable, os[1..], id)
  {
    TouchesOne(claimable, os[0], id);
  }

  ghost predicate AllFormed(pending: Requests) {
    forall id :: id in pending ==> WellFormed(pending[id])
  }

  lemma OneInputDone(c: Scan, tx: Tx, o: OutPoint, at: nat, hash: nat)
    requires SpendRequest(c, tx, o, at, hash).Some?
    requires AllFormed(c.s.pending) && FormedGroups(c.s.locktimed)
    ensures InputsDone(c, SpendQueued(SpendRequest(c, tx, o, at, hash).value, o), tx, [o], at, hash)
  {
    hide SpendRequest, SplitQueue, StripQueue, QueuePiece, FormedGroups, WellFormed, AfterTx, TakenOff, Noted, Touches;
    var d := SpendRequest(c, tx, o, at, hash).value;
    SpendRequestIs(c, tx, o, at, hash);
    SplitQueueIs(c.s.locktimed, o);
    assert Elems([o]) == {o};
    forall id ensures Touches(c.s.claimable, [o], id) <==> o in c.s.claimable && c.s.claimable[o].0 == id {
      TouchesOne(c.s.claimable, o, id);
    }
    if o in c.s.claimable {
      var id := c.s.claimable[o].0;
      AfterTxShrinks(c.s.pending[id], tx);
      OneNoted(c.s.pending, c.bumps, id, AfterTx(c.s.pending[id], tx));
    } else {
      NothingNoted(c.s.pending, c.bumps);
    }
  }

  lemma AfterTxShrinks(p: Package, tx: Tx)
    ensures AfterTx(p, tx) == p || |AfterTx(p, tx).inputs| < |p.inputs|
  {
    KeepingMembers(p.inputs, Ins(tx));
  }

  // A second look at a transaction changes nothing.
  lemma AfterTxTwice(p: Package, tx: Tx, x: Piece)
    requires WellFormed(p)
    ensures WellFormed(AfterTx(p, tx)) && AfterTx(AfterTx(p, tx), tx) == AfterTx(p, tx)
    ensures Outs(AfterTx(p, tx).inputs) <= Ins(tx) <==> Outs(p.inputs) <= Ins(tx)
    ensures TakenOff(AfterTx(p, tx), tx, x) ==> TakenOff(p, tx, x)
  {
    hide WellFormed, AfterTx, PieceOf;
    AfterTxFormed(p, tx);
    if AfterTx(p, tx) != p {
      NothingLeftToTake(p, Ins(tx), x);
    }
  }

  lemma NothingLeftToTake(p: Package, taken: set<OutPoint>, x: Piece)
    ensures !PieceOf(Strip(p, taken), taken, x)
  {
    KeepingMembers(p.inputs, taken);
  }

  lemma RequestsDoneTrans(s: State, mid: State, now: Requests, tx: Tx, os: seq<OutPoint>)
    requires os != [] && AllFormed(s.pending) && mid.claimable == s.claimable
    requires RequestsDone(s, mid.pending, tx, [os[0]]) && RequestsDone(mid, now, tx, os[1..])
    ensures RequestsDone(s, now, tx, os) && AllFormed(mid.pending)
  {
    hide WellFormed, AfterTx, Touches;
    forall id | id in s.pending
      ensures now[id] == AfterInputs(s.pending[id], tx, Touches(s.claimable, os, id)) && WellFormed(mid.pending[id])
    {
      TouchesEither(s.claimable, os, id);
      AfterTxFormed(s.pending[id], tx);
    }
  }

  lemma EventsDoneTrans(s: State, mid: State, now: seq<Entry>, tx: Tx, os: seq<OutPoint>, at: nat, hash: nat)
    requires os != [] && AllFormed(s.pending) && mid.claimable == s.claimable
    requires RequestsDone(s, mid.pending, tx, [os[0]])
    requires EventsDone(s, mid.events, tx, [os[0]], at, hash) && EventsDone(mid, now, tx, os[1..], at, hash)
    ensures EventsDone(s, now, tx, os, at, hash)
  {
    hide WellFormed, AfterTx, Touches;
    forall id ensures Confirms(s, os, tx, id) <==> Confirms(s, [os[0]], tx, id) || Confirms(mid, os[1..], tx, id) {
      TouchesEither(s.claimable, os, id);
      if id in s.pending { AfterTxFormed(s.pending[id], tx); }
    }
  }

  lemma TakesEither(s: State, mid: State, tx: Tx, os: seq<OutPoint>, x: Piece)
    requires os != [] && AllFormed(s.pending) && mid.claimable == s.claimable
    requires RequestsDone(s, mid.pending, tx, [os[0]])
    ensures Takes(s, os, tx, x) <==> Takes(s, [os[0]], tx, x) || Takes(mid, os[1..], tx, x)
  {
    hide WellFormed, AfterTx, Touches, TakenOff;
    forall id | id in s.pending
      ensures Touches(s.claimable, os, id) && TakenOff(s.pending[id], tx, x) <==>
              (Touches(s.claimable, [os[0]], id) && TakenOff(s.pending[id], tx, x))
              || (Touches(s.claimable, os[1..], id) && TakenOff(mid.pending[id], tx, x))
    {
      TouchesEither(s.claimable, os, id);
      AfterTxTwice(s.pending[id], tx, x);
    }
  }

  lemma PiecesDoneTrans(c: Scan, mid: Scan, now: seq<Piece>, tx: Tx, os: seq<OutPoint>)
    requires os != [] && AllFormed(c.s.pending) && mid.s.claimable == c.s.claimable
    requires RequestsDone(c.s, mid.s.pending, tx, [os[0]])
    requires mid.s.locktimed == StripQueue(c.s.locktimed, {os[0]})
    requires PiecesDone(c, mid.pieces, tx, [os[0]]) && PiecesDone(mid, now, tx, os[1..])
    ensures PiecesDone(c, now, tx, os)
  {
    hide RequestsDone, AllFormed, Takes, QueuePiece, StripQueue;
    assert Elems(os) == {os[0]} + Elems(os[1..]) && Elems([os[0]]) == {os[0]};
    forall x ensures x in now <==> x in c.pieces || Takes(c.s, os, tx, x) || QueuePiece(c.s.locktimed, Elems(os), x) {
      TakesEither(c.s, mid.s, tx, os, x);
      QueuePieceEither(c.s.locktimed, {os[0]}, Elems(os[1..]), x);
    }
  }

  lemma InputsDoneTrans(c: Scan, mid: Scan, d: Scan, tx: Tx, os: seq<OutPoint>, at: nat, hash: nat)
    requires os != [] && AllFormed(c.s.pending)
    requires InputsDone(c, mid, tx, [os[0]], at, hash) && InputsDone(mid, d, tx, os[1..], at, hash)
    ensures InputsDone(c, d, tx, os, at, hash)
  {
    hide RequestsDone, EventsDone, PiecesDone, Noted, AllFormed, StripQueue;
    assert Elems(os) == {os[0]} + Elems(os[1..]) && Elems([os[0]]) == {os[0]};
    RequestsDoneTrans(c.s, mid.s, d.s.pending, tx, os);
    EventsDoneTrans(c.s, mid.s, d.s.events, tx, os, at, hash);
    PiecesDoneTrans(c, mid, d.pieces, tx, os);
    NotedTrans(c.s.pending, mid.s.pending, d.s.pending, c.bumps, mid.bumps, d.bumps);
    StripQueueTwice(c.s.locktimed, {os[0]}, Elems(os[1..]));
    if os[1..] == [] { assert os == [os[0]]; }
  }

  lemma NoInputsDone(c: Scan, tx: Tx, at: nat, hash: nat)
    ensures InputsDone(c, c, tx, [], at, hash)
  {
    hide AfterTx, TakenOff, QueuePiece;
    var none: seq<OutPoint> := [];
    assert Elems(none) == {};
    assert forall id :: !Touches(c.s.claimable, none, id);
    forall x ensures !QueuePiece(c.s.locktimed, Elems(none), x) { QueuePieceNothing(c.s.locktimed, x); }
    NothingNoted(c.s.pending, c.bumps);
  }

  lemma {:induction false} SpendInputsDone(c: Scan, tx: Tx, os: seq<OutPoint>, at: nat, hash: nat)
    requires SpendInputs(c, tx, os, at, hash).Some?
    requires AllFormed(c.s.pending) && FormedGroups(c.s.locktimed)
    ensures InputsDone(c, SpendInputs(c, tx, os, at, hash).value, tx, os, at, hash)
    decreases os
  {
    hide SpendRequest, SpendQueued, StripQueue, RequestsDone, EventsDone, PiecesDone, Noted, AllFormed, FormedGroups;
    if os == [] {
      NoInputsDone(c, tx, at, hash);
    } else {
      var mid := SpendQueued(SpendRequest(c, tx, os[0], at, hash).value, os[0]);
      OneInputDone(c, tx, os[0], at, hash);
      StripQueueFormed(c.s.locktimed, Elems([os[0]]));
      DoneFormed(c.s, mid.s.pending, tx, [os[0]]);
      SpendInputsDone(mid, tx, os[1..], at, hash);
      InputsDoneTrans(c, mid, SpendInputs(c, tx, os, at, hash).value, tx, os, at, hash);
    }
  }

  lemma DoneFormed(s: State, now: Requests, tx: Tx, os: seq<OutPoint>)
    requires AllFormed(s.pending) && RequestsDone(s, now, tx, os)
    ensures AllFormed(now)
  {
    hide WellFormed, AfterTx, Touches;
    forall id | id in now ensures WellFormed(now[id]) {
      AfterTxFormed(s.pending[id], tx);
    }
  }

  // ---- One transaction ----

  // The transaction causes the event: it confirms a claim, or takes an outpoint out of a request or
  // of a timelocked package.
  ghost predicate Brings(pending: Requests, q: Queue, tx: Tx, at: nat, hash: nat, e: Entry) {
    && e.txid == tx.txid && e.height == at && e.blockHash == hash
    && match e.event
       case Claimed(id) => id in pending && Outs(pending[id].inputs) <= Ins(tx)
       case Contentious(x) =>
         || (exists id :: id in pending && TakenOff(pending[id], tx, x))
         || QueuePiece(q, Ins(tx), x)
  }

  function QueueAfter(q: Queue, taken: set<OutPoint>): Queue {
    if taken == {} then q else StripQueue(q, taken)
  }

  ghost predicate TxDone(s: State, bumps: Requests, t: State, after: Requests, tx: Tx, at: nat, hash: nat) {
    && t.claimable == s.claimable
    && t.pending.Keys == s.pending.Keys
    && (forall id :: id in s.pending ==> t.pending[id] == AfterTx(s.pending[id], tx))
    && Noted(s.pending, t.pending, bumps, after)
    && t.locktimed == QueueAfter(s.locktimed, Ins(tx))
    && forall e :: e in t.events <==> e in s.events || Brings(s.pending, s.locktimed, tx, at, hash, e)
  }

  // Only inputs linked to a request can take anything out of it.
  lemma UntouchedKeeps(s: State, tx: Tx, id: ClaimId)
    requires Owning(s.pending, s.claimable) && id in s.pending && !Touches(s.claimable, tx.inputs, id)
    ensures AfterTx(s.pending[id], tx) == s.pending[id]
    ensures !(Outs(s.pending[id].inputs) <= Ins(tx)) && forall x :: !TakenOff(s.pending[id], tx, x)
  {
    hide Uniform, Distinct;
    var p := s.pending[id];
    forall o | o in Outs(p.inputs) ensures o !in Ins(tx) {
      assert Holds(p, o);
    }
    assert p.inputs[0].0 in Outs(p.inputs);
    KeepingAll(p.inputs, Ins(tx));
    forall y | y in p.inputs ensures y.0 !in Ins(tx) {
      InOuts(p.inputs, y);
    }
  }

  lemma AllTouched(s: State, now: Requests, tx: Tx)
    requires Owning(s.pending, s.claimable) && RequestsDone(s, now, tx, tx.inputs)
    ensures forall id :: id in s.pending ==> now[id] == AfterTx(s.pending[id], tx)
  {
    hide AfterTx, Touches, Owning, TakenOff;
    forall id | id in s.pending ensures now[id] == AfterTx(s.pending[id], tx) {
      if !Touches(s.claimable, tx.inputs, id) { UntouchedKeeps(s, tx, id); }
    }
  }

  // The events of the claims and of the pieces, taken together.
  lemma BringsIs(c: Scan, d: Scan, tx: Tx, at: nat, hash: nat)
    requires Owning(c.s.pending, c.s.claimable) && c.pieces == []
    requires EventsDone(c.s, d.s.events, tx, tx.inputs, at, hash) && PiecesDone(c, d.pieces, tx, tx.inputs)
    ensures forall e :: e in d.s.events || e in PieceEntries(d.pieces, tx, at, hash) <==>
                        e in c.s.events || Brings(c.s.pending, c.s.locktimed, tx, at, hash, e)
  {
    hide Owning, Touches, TakenOff, QueuePiece, EventsDone, PiecesDone;
    forall e ensures e in d.s.events || e in PieceEntries(d.pieces, tx, at, hash) <==>
                     e in c.s.events || Brings(c.s.pending, c.s.locktimed, tx, at, hash, e)
    {
      match e.event
      case Claimed(id) => ClaimedIs(c, d, tx, at, hash, e);
      case Contentious(x) => ContentiousIs(c, d, tx, at, hash, e);
    }
  }

  lemma ClaimedIs(c: Scan, d: Scan, tx: Tx, at: nat, hash: nat, e: Entry)
    requires Owning(c.s.pending, c.s.claimable) && e.event.Claimed?
    requires EventsDone(c.s, d.s.events, tx, tx.inputs, at, hash)
    ensures e !in PieceEntries(d.pieces, tx, at, hash)
    ensures e in d.s.events <==> e in c.s.events || Brings(c.s.pending, c.s.locktimed, tx, at, hash, e)
  {
    hide Owning, Touches, TakenOff, QueuePiece;
    var id := e.event.id;
    if id in c.s.pending && !Touches(c.s.claimable, tx.inputs, id) { UntouchedKeeps(c.s, tx, id); }
  }

  lemma ContentiousIs(c: Scan, d: Scan, tx: Tx, at: nat, hash: nat, e: Entry)
    requires Owning(c.s.pending, c.s.claimable) && c.pieces == [] && e.event.Contentious?
    requires EventsDone(c.s, d.s.events, tx, tx.inputs, at, hash) && PiecesDone(c, d.pieces, tx, tx.inputs)
    ensures e in d.s.events || e in PieceEntries(d.pieces, tx, at, hash) <==>
            e in c.s.events || Brings(c.s.pending, c.s.locktimed, tx, at, hash, e)
  {
    hide Owning, Touches, TakenOff, QueuePiece;
    var x := e.event.package;
    PieceEntryIn(d.pieces, tx, at, hash, e);
    if id :| id in c.s.pending && TakenOff(c.s.pending[id], tx, x) {
      if !Touches(c.s.claimable, tx.inputs, id) { UntouchedKeeps(c.s, tx, id); }
      assert Takes(c.s, tx.inputs, tx, x);
    }
  }

  lemma PieceEntryIn(pieces: seq<Piece>, tx: Tx, at: nat, hash: nat, e: Entry)
    requires e.event.Contentious?
    ensures e in PieceEntries(pieces, tx, at, hash) <==>
            e.event.package in pieces && e == Entry(tx.txid, at, hash, e.event)
  {
    if e.event.package in pieces && e == Entry(tx.txid, at, hash, e.event) {
      var i :| 0 <= i < |pieces| && pieces[i] == e.event.package;
      assert PieceEntries(pieces, tx, at, hash)[i] == e;
    }
  }

  lemma SpendTxDone(s: State, bumps: Requests, tx: Tx, at: nat, hash: nat)
    requires SpendTx(s, bumps, tx, at, hash).Some?
    requires Owning(s.pending, s.claimable) && FormedGroups(s.locktimed)
    ensures
      var r := SpendTx(s, bumps, tx, at, hash).value;
      TxDone(s, bumps, r.0, r.1, tx, at, hash)
  {
    hide SpendInputs, RequestsDone, EventsDone, PiecesDone, Noted, FormedGroups, AfterTx, Brings, StripQueue, Owning,
      RecordPieces, AllFormed;
    var c := Scan(s, [], bumps);
    OwningFormed(s);
    SpendInputsDone(c, tx, tx.inputs, at, hash);
    var d := SpendInputs(c, tx, tx.inputs, at, hash).value;
    AllTouched(s, d.s.pending, tx);
    DoneKeys(s, d.s.pending, tx);
    BringsIs(c, d, tx, at, hash);
    RecordPiecesMembers(d.s.events, d.pieces, tx, at, hash);
    if tx.inputs != [] { assert tx.inputs[0] in Ins(tx); }
  }

  lemma DoneKeys(s: State, now: Requests, tx: Tx)
    requires RequestsDone(s, now, tx, tx.inputs)
    ensures now.Keys == s.pending.Keys
  {
  }

  lemma OwningFormed(s: State)
    requires Owning(s.pending, s.claimable)
    ensures AllFormed(s.pending)
  {
    hide WellFormed;
  }
}
