// Inputs on which the claim tracker does not meet its promises, each reached by a run from the empty
// tracker.
module ClaimFailures {
  import opened Common
  import opened Packages
  import opened ClaimState
  import opened ClaimInvariant
  import opened ClaimMature
  import opened ClaimReorg
  import opened ClaimTheorems
  import opened ClaimRegister
  import opened ClaimRuns

  // ---- Two claims made together, one of them spent by someone else ----

  // An output of the counterparty's commitment, created at 90, whose HTLC expires at `locktime`.
  function Expired(vout: nat, locktime: nat): Piece {
    Package([(OutPoint(1, vout), Solving(Counterparty, Some(locktime), None, Some(90)))], Malleable(true), 50, 0, 0)
  }

  function Always(id: ClaimId): Oracle {
    (height: nat, p: Package) => Some(Claim(height + 15, 1, id))
  }

  const BOTH: Package := Package(Expired(0, 97).inputs + Expired(1, 99).inputs, Malleable(true), 50, 0, 0)
  const LINKS: Links := map[OutPoint(1, 0) := (7, 90), OutPoint(1, 1) := (7, 90)]
  const PAIRED: State := State(map[7 := BOTH.(timer := 115, feerate := 1)], LINKS, [], [])
  const SPLIT: State :=
    State(map[7 := Expired(1, 99).(timer := 116, feerate := 1)], LINKS, [],
          [Entry(2, 101, 0, Contentious(Expired(0, 97).(timer := 115, feerate := 1)))])

  lemma PairRegisters()
    ensures Preprocess(EMPTY, [Expired(0, 97), Expired(1, 99)], 100) == ([BOTH], [])
  {
    var a, b := Expired(0, 97), Expired(1, 99);
    assert [a, b][1..] == [b] && [b][1..] == [];
    assert DropDuplicates(EMPTY, [b]) == [b];
    assert DropDuplicates(EMPTY, [a, b]) == [a, b];
    PieceLocktime(a, 100);
    PieceLocktime(b, 100);
    assert SignedLocktime(a.inputs[1..]) == None && SignedLocktime(b.inputs[1..]) == None;
    assert Merge(a, b, 100) == Some(BOTH);
    assert [a, b][..1] + [a, b][2..] == [a];
    assert MergeDown([a, b], 1, 0, 100) == [BOTH];
    assert Aggregate([a, b], 1, 100) == [BOTH];
    GreatestMinimumConcat(a.inputs, b.inputs);
    assert SignedLocktime(BOTH.inputs[1..]) == None;
    assert PackageLocktime(BOTH, 100) == 100;
    assert [BOTH][1..] == [];
    assert SplitByLocktime([], [], 100) == ([], []);
    assert [BOTH] + [] == [BOTH];
    assert SplitByLocktime([BOTH], [], 100) == ([BOTH], []);
  }

  lemma PairKept(x: nat, y: nat)
    ensures DropDuplicates(EMPTY, [Expired(0, x), Expired(1, y)]) == [Expired(0, x), Expired(1, y)]
  {
    var a, b := Expired(0, x), Expired(1, y);
    assert [a, b][1..] == [b] && [b][1..] == [];
    assert DropDuplicates(EMPTY, [b]) == [b];
  }

  lemma PairBag(a: Piece, b: Piece)
    requires a.inputs[0].0 != b.inputs[0].0
    ensures forall o :: o in GroupBag([a, b]) ==> GroupBag([a, b])[o] == 1
  {
    hide Bag;
    assert [a, b][1..] == [b] && [b][1..] == [];
    assert GroupBag([b]) == Bag(b.inputs) + GroupBag([]);
    PieceBag(a);
    PieceBag(b);
  }

  lemma PieceBag(p: Piece)
    ensures Bag(p.inputs) == multiset{p.inputs[0].0}
  {
    assert Outpoints(p.inputs) == [p.inputs[0].0];
  }

  lemma PairRequested(x: nat, y: nat, height: nat)
    ensures CanRequest(EMPTY, [Expired(0, x), Expired(1, y)], height)
  {
    hide DropDuplicates, GroupBag, CanMergeWith;
    PairKept(x, y);
    PairBag(Expired(0, x), Expired(1, y));
    NothingTaken();
  }

  lemma NothingTaken()
    ensures QueueBag(EMPTY.locktimed) == multiset{} && Contested(EMPTY.events) == {}
  {
  }

  lemma PairLinked()
    ensures RegisterOne(EMPTY, BOTH, 100, 100, Always(7)) == PAIRED
  {
    assert !HasConfirmedSpend(EMPTY, BOTH.inputs[0].0);
    assert BOTH.inputs[1..] == Expired(1, 99).inputs && Expired(1, 99).inputs[1..] == [];
    assert Link(LINKS, [], 7, 100) == LINKS;
    assert Link(map[OutPoint(1, 0) := (7, 90)], Expired(1, 99).inputs, 7, 100) == LINKS;
  }

  lemma PairRegistered()
    ensures CanRegister(EMPTY, [Expired(0, 97), Expired(1, 99)], 100, 100, Always(7))
    ensures Register(EMPTY, [Expired(0, 97), Expired(1, 99)], 100, 100, Always(7)) == PAIRED
  {
    hide Preprocess, CanRequest, RegisterOne, BOTH;
    PairRegisters();
    PairRequested(97, 99, 100);
    PairLinked();
    assert [BOTH][1..] == [];
    assert NewIds(PAIRED, [], 100, 100, Always(7));
    assert RegisterAll(PAIRED, [], 100, 100, Always(7)) == PAIRED;
    assert EMPTY.(locktimed := []) == EMPTY;
  }

  const SPENDER: Tx := Tx(2, [OutPoint(1, 0)])

  lemma SpendTakesPiece()
    ensures
      var rest := Expired(1, 99).(timer := 115, feerate := 1);
      SplitInputs(PAIRED.pending[7], [], [], SPENDER.inputs, Entry(2, 101, 0, Claimed(7)))
      == (rest, [], [Expired(0, 97).(timer := 115, feerate := 1)])
  {
    var request := PAIRED.pending[7];
    var piece: Piece := Expired(0, 97).(timer := 115, feerate := 1);
    var rest := Expired(1, 99).(timer := 115, feerate := 1);
    assert request.inputs[1..] == rest.inputs && rest.inputs[1..] == [];
    assert FindLast(rest.inputs, OutPoint(1, 0)) == None;
    assert SplitPiece(request, OutPoint(1, 0)) == Some(piece);
    WithoutNothing(rest.inputs, OutPoint(1, 0));
    assert SplitRest(request, OutPoint(1, 0)) == rest;
    assert [] + [piece] == [piece] && SPENDER.inputs[1..] == [];
  }

  lemma SpendScans()
    ensures
      var rest := Expired(1, 99).(timer := 115, feerate := 1);
      var piece: Piece := Expired(0, 97).(timer := 115, feerate := 1);
      SpendTxs(PAIRED, map[], [SPENDER], 101, 0)
      == Some((SPLIT.(pending := map[7 := rest]), map[7 := rest]))
  {
    SpendTakesPiece();
    var rest := Expired(1, 99).(timer := 115, feerate := 1);
    var piece: Piece := Expired(0, 97).(timer := 115, feerate := 1);
    var d := Scan(PAIRED.(pending := map[7 := rest]), [piece], map[7 := rest]);
    assert PAIRED.pending[7].inputs[1].0 !in SPENDER.inputs;
    assert PAIRED.pending[7 := rest] == map[7 := rest];
    assert SpendRequest(Scan(PAIRED, [], map[]), SPENDER, OutPoint(1, 0), 101, 0) == Some(d);
    SpendFinishes(d, rest, piece);
  }

  lemma SpendFinishes(d: Scan, rest: Package, piece: Piece)
    requires d == Scan(PAIRED.(pending := map[7 := rest]), [piece], map[7 := rest])
    requires SpendRequest(Scan(PAIRED, [], map[]), SPENDER, OutPoint(1, 0), 101, 0) == Some(d)
    requires piece == Expired(0, 97).(timer := 115, feerate := 1)
    ensures SpendTxs(PAIRED, map[], [SPENDER], 101, 0)
            == Some((SPLIT.(pending := map[7 := rest]), map[7 := rest]))
  {
    hide SpendRequest;
    assert SPENDER.inputs[1..] == [] && [piece] + [] == [piece];
    assert SpendQueued(d, OutPoint(1, 0)) == d;
    assert SpendInputs(d, SPENDER, [], 101, 0) == Some(d);
    var e := Entry(2, 101, 0, Contentious(piece));
    assert [piece][1..] == [] && [] + [e] == [e];
    assert RecordPieces([e], [], SPENDER, 101, 0) == [e];
    assert [SPENDER][1..] == [];
  }

  lemma SpendSplits()
    ensures Matched(PAIRED, [SPENDER], 101, 0, 101, Always(7)) == Some(SPLIT)
  {
    hide SpendTxs, Mature;
    SpendScans();
    var rest := Expired(1, 99).(timer := 115, feerate := 1);
    var t := SPLIT.(pending := map[7 := rest]);
    MatureNothing(t.(events := []), t.events, 101);
    assert [] + t.events == t.events;
    assert !HasConfirmedSpend(t, rest.inputs[0].0);
    assert Rebump(t, map[7 := rest], 101, Always(7)).pending == SPLIT.pending;
  }

  lemma SplitPanics()
    ensures Disconnect(SPLIT, 97, Always(7)).None?
  {
    var piece: Piece := SPLIT.events[0].event.package;
    PieceLocktime(piece, 98);
    var rest: Piece := Expired(1, 99).(timer := 116, feerate := 1);
    PieceLocktime(rest, 98);
    assert PackageLocktime(rest, 98) == 99 && PackageLocktime(piece, 98) == 98;
    assert SPLIT.events[1..] == [];
  }

  // The reorganisation panic can be reached by steps allowed up to it. Two outputs with expired
  // HTLCs are claimed together at 100, one of them is spent by someone else at 101, and then blocks
  // are disconnected down to 97: there the spent output's locktime 97 is reached, the other's 99 is not.
  lemma ReorgCanPanic()
    ensures
      var steps := [Registering([Expired(0, 97), Expired(1, 99)], 100, 100, Always(7)),
                    Seeing(Block([SPENDER], 101, 0, 101), Always(7))];
      && AllowedRun(EMPTY, steps) && Run(EMPTY, steps).Some?
      && Apply(Run(EMPTY, steps).value, Disconnecting(97, Always(7))).None?
  {
    hide Register, Matched, Disconnect, CanRegister;
    PairRegistered();
    SpendSplits();
    SplitPanics();
    var first := Registering([Expired(0, 97), Expired(1, 99)], 100, 100, Always(7));
    var second := Seeing(Block([SPENDER], 101, 0, 101), Always(7));
    assert [first, second][1..] == [second] && [second][1..] == [];
    assert Run(PAIRED, [second]) == Run(SPLIT, []) == Some(SPLIT);
    assert Run(EMPTY, [first, second]) == Some(SPLIT);
    assert AllowedRun(SPLIT, []);
    assert AllowedRun(PAIRED, [second]);
  }

  // ---- A reorganisation that returns an outpoint to the timelock queue ----

  const RETURNED: State := SPLIT.(locktimed := [(97, [Expired(0, 97).(timer := 115, feerate := 1)])], events := [])

  lemma SplitReturns()
    ensures Disconnect(SPLIT, 96, Always(7)) == Some(RETURNED)
  {
    var piece: Piece := SPLIT.events[0].event.package;
    PieceLocktime(piece, 96);
    assert SPLIT.events[1..] == [];
    assert Enqueue([], 97, piece) == [(97, [piece])];
    var u := RETURNED;
    assert Undo(SPLIT.(events := []), map[], SPLIT.events, 96) == Some((u, map[]));
    assert Restore(u, map[], 96, Always(7)).pending == u.pending;
    var v := Erase(u, 96);
    assert v.claimable == u.claimable && v.pending == u.pending;
  }

  lemma SplitFits()
    ensures AllFit(SPLIT.pending, SPLIT.claimable, SPLIT.events, 96)
    ensures !NoneReturns(SPLIT.claimable, SPLIT.events, 96)
  {
    var e := SPLIT.events[0];
    assert e in SPLIT.events && InputLocktime(e.event.package.inputs[0].1) == 97;
  }

  lemma SplitReached()
    ensures
      var steps := [Registering([Expired(0, 97), Expired(1, 99)], 100, 100, Always(7)),
                    Seeing(Block([SPENDER], 101, 0, 101), Always(7))];
      AllowedRun(EMPTY, steps) && Run(EMPTY, steps) == Some(SPLIT)
  {
    hide Register, Matched, CanRegister, CanMatch;
    PairRegistered();
    SpendSplits();
    SpendMatches();
    var first := Registering([Expired(0, 97), Expired(1, 99)], 100, 100, Always(7));
    var second := Seeing(Block([SPENDER], 101, 0, 101), Always(7));
    assert [first, second][1..] == [second] && [second][1..] == [];
    assert AllowedRun(SPLIT, []) && Run(SPLIT, []) == Some(SPLIT);
    assert AllowedRun(PAIRED, [second]) && Run(PAIRED, [second]) == Some(SPLIT);
  }

  lemma SpendMatches()
    ensures CanMatch(PAIRED, [SPENDER], 101, 101)
  {
  }

  lemma SplitConsistent()
    ensures Consistent(SPLIT)
  {
    hide Consistent, Allowed, Apply;
    SplitReached();
    EmptyIsConsistent();
    RunsStayConsistent(EMPTY, [Registering([Expired(0, 97), Expired(1, 99)], 100, 100, Always(7)),
                               Seeing(Block([SPENDER], 101, 0, 101), Always(7))]);
  }

  // The spent output's locktime 97 lies above the new tip 96, and its claim was made by then: the
  // output goes back to the queue and stays linked to the claim.
  lemma ReorgCanReturn()
    ensures Consistent(SPLIT) && Disconnect(SPLIT, 96, Always(7)) == Some(RETURNED) && !Consistent(RETURNED)
  {
    hide Consistent, Disconnect, AllFit, NoneReturns;
    SplitConsistent();
    SplitReturns();
    SplitFits();
    DisconnectKeepsConsistentExactlyWhen(SPLIT, 96, Always(7));
  }

  // ---- Abandoning a claim that was split ----

  lemma AbandonCanDangle()
    ensures Consistent(SPLIT) && FindsClaim(SPLIT, OutPoint(1, 0), Some(7))
    ensures !Consistent(Abandon(SPLIT, OutPoint(1, 0), Some(7)))
  {
    hide Consistent, Abandon;
    SplitConsistent();
    AbandonKeepsConsistentExactlyWhen(SPLIT, OutPoint(1, 0), Some(7));
    assert !Holds(SPLIT.pending[7], OutPoint(1, 0)) by {
      assert SPLIT.pending[7].inputs[1..] == [];
    }
    assert OutPoint(1, 0) in SPLIT.claimable;
  }

  // ---- From the returned outpoint to the panic ----

  const NEVER: Oracle := (height: nat, p: Package) => None

  const LOST: State := RETURNED.(locktimed := [])
  const LEFT_SPENDER: Tx := Tx(3, [OutPoint(1, 1)])
  const CONFIRMED: State := LOST.(events := [Entry(3, 98, 0, Claimed(7))])
  const ORPHANED: State := State(map[], map[OutPoint(1, 0) := (7, 90)], [], [])

  // Its locktime comes again, but no claim of it is built.
  lemma ReturnedIsDropped()
    ensures CanRegister(RETURNED, [], 97, 97, NEVER)
    ensures Register(RETURNED, [], 97, 97, NEVER) == LOST
  {
    var piece := RETURNED.locktimed[0].1[0];
    assert RETURNED.locktimed[1..] == [] && [piece] + [] == [piece] && [] + [piece] == [piece];
    assert DropDuplicates(RETURNED, []) == [] && Aggregate([], 0, 97) == [];
    assert SplitByLocktime([], RETURNED.locktimed, 97) == ([], RETURNED.locktimed);
    assert PopReady(RETURNED.locktimed[1..], 97) == ([], []);
    assert PopReady(RETURNED.locktimed, 97) == ([piece], []);
    assert Preprocess(RETURNED, [], 97) == ([piece], []);
    assert GenerateClaim(LOST, piece, 97, NEVER) == None;
    assert [piece][1..] == [];
    assert RegisterAll(LOST, [piece], 97, 97, NEVER) == LOST;
    assert NewIds(LOST, [], 97, 97, NEVER);
  }

  lemma LeftConfirms()
    ensures CanMatch(LOST, [LEFT_SPENDER], 98, 98)
    ensures Matched(LOST, [LEFT_SPENDER], 98, 0, 98, Always(7)) == Some(CONFIRMED)
  {
    var o := OutPoint(1, 1);
    assert LEFT_SPENDER.inputs[1..] == [] && [LEFT_SPENDER][1..] == [];
    assert CoveredBy(LOST.pending[7], LEFT_SPENDER);
    assert Record([], Entry(3, 98, 0, Claimed(7))) == CONFIRMED.events;
    var c := Scan(CONFIRMED, [], map[]);
    assert SpendRequest(Scan(LOST, [], map[]), LEFT_SPENDER, o, 98, 0) == Some(c);
    assert SpendQueued(c, o) == c;
    assert SpendTxs(LOST, map[], [LEFT_SPENDER], 98, 0) == Some((CONFIRMED, map[]));
    ConfirmedWaits();
  }

  lemma ConfirmedWaits()
    ensures Rebump(Mature(CONFIRMED.(events := []), CONFIRMED.events, 98), map[], 98, Always(7)) == CONFIRMED
  {
    MatureNothing(CONFIRMED.(events := []), CONFIRMED.events, 98);
    assert [] + CONFIRMED.events == CONFIRMED.events;
    assert CONFIRMED.pending[7].timer > 98;
    assert Rebump(CONFIRMED, map[], 98, Always(7)).pending == CONFIRMED.pending;
  }

  lemma ClaimMatures()
    ensures CanMatch(CONFIRMED, [], 103, 103)
    ensures Matched(CONFIRMED, [], 103, 0, 103, Always(7)) == Some(ORPHANED)
  {
    var e := CONFIRMED.events[0];
    assert CONFIRMED.events[1..] == [];
    var inputs := CONFIRMED.pending[7].inputs;
    assert (set i | 0 <= i < |inputs| :: inputs[i].0) == {OutPoint(1, 1)} by {
      assert inputs[0].0 == OutPoint(1, 1) && |inputs| == 1;
    }
    var t := MatureOne(CONFIRMED.(events := []), e);
    assert t.pending == map[] && t.claimable == ORPHANED.claimable;
    assert Mature(CONFIRMED.(events := []), CONFIRMED.events, 103) == ORPHANED;
    assert Rebump(ORPHANED, map[], 103, Always(7)).pending == map[];
  }

  lemma OrphanPanics()
    ensures CanMatch(ORPHANED, [SPENDER], 104, 104)
    ensures Matched(ORPHANED, [SPENDER], 104, 0, 104, Always(7)).None?
  {
    assert SpendRequest(Scan(ORPHANED, [], map[]), SPENDER, OutPoint(1, 0), 104, 0).None?;
  }

  // As allowed, but of a reorganisation only that it passes its merge assertion.
  ghost predicate Assumed(s: State, step: Step) {
    if step.Disconnecting? then AllFit(s.pending, s.claimable, s.events, step.height) else Allowed(s, step)
  }

  ghost predicate AssumedRun(s: State, steps: seq<Step>)
    decreases steps
  {
    steps == [] ||
    (Assumed(s, steps[0]) && (Apply(s, steps[0]).Some? ==> AssumedRun(Apply(s, steps[0]).value, steps[1..])))
  }

  lemma OneStep(s: State, step: Step, t: State, rest: seq<Step>)
    requires Assumed(s, step) && Apply(s, step) == Some(t) && AssumedRun(t, rest)
    ensures AssumedRun(s, [step] + rest) && Run(s, [step] + rest) == Run(t, rest)
  {
    hide Assumed, Apply;
    assert ([step] + rest)[1..] == rest;
  }

  lemma LastStep(s: State, step: Step)
    requires Assumed(s, step) && Apply(s, step).None?
    ensures AssumedRun(s, [step]) && Run(s, [step]).None?
  {
    hide Assumed, Apply;
  }

  // What follows a reorganisation that returns an outpoint: its claim is not built again, the rest
  // of the old claim is spent and matures, and then a block spends the outpoint. The panic that
  // promises consistent maps is reached.
  const RETURN_RUN: seq<Step> :=
    [Registering([Expired(0, 97), Expired(1, 99)], 100, 100, Always(7))]
    + ([Seeing(Block([SPENDER], 101, 0, 101), Always(7))]
       + ([Disconnecting(96, Always(7))]
          + ([Registering([], 97, 97, NEVER)]
             + ([Seeing(Block([LEFT_SPENDER], 98, 0, 98), Always(7))]
                + ([Seeing(Block([], 103, 0, 103), Always(7))]
                   + [Seeing(Block([SPENDER], 104, 0, 104), Always(7))])))))

  lemma ReturnCanPanic()
    ensures AssumedRun(EMPTY, RETURN_RUN) && Run(EMPTY, RETURN_RUN).None?
  {
    hide Register, Matched, Disconnect, CanRegister, CanMatch, AllFit, AssumedRun, Run;
    PairRegistered();
    SpendSplits();
    SpendMatches();
    SplitReturns();
    SplitFits();
    ReturnedIsDropped();
    LeftConfirms();
    ClaimMatures();
    OrphanPanics();
    var last := Seeing(Block([SPENDER], 104, 0, 104), Always(7));
    LastStep(ORPHANED, last);
    var matures := Seeing(Block([], 103, 0, 103), Always(7));
    OneStep(CONFIRMED, matures, ORPHANED, [last]);
    var confirms := Seeing(Block([LEFT_SPENDER], 98, 0, 98), Always(7));
    OneStep(LOST, confirms, CONFIRMED, [matures] + [last]);
    var drops := Registering([], 97, 97, NEVER);
    OneStep(RETURNED, drops, LOST, [confirms] + ([matures] + [last]));
    var reorg := Disconnecting(96, Always(7));
    OneStep(SPLIT, reorg, RETURNED, [drops] + ([confirms] + ([matures] + [last])));
    var splits := Seeing(Block([SPENDER], 101, 0, 101), Always(7));
    OneStep(PAIRED, splits, SPLIT, [reorg] + ([drops] + ([confirms] + ([matures] + [last]))));
    var first := Registering([Expired(0, 97), Expired(1, 99)], 100, 100, Always(7));
    OneStep(EMPTY, first, PAIRED, [splits] + ([reorg] + ([drops] + ([confirms] + ([matures] + [last])))));
  }

  // ---- A request repeated while it is timelocked ----

  const WAITING: Package := Package(Expired(0, 97).inputs + Expired(1, 97).inputs, Malleable(true), 50, 0, 0)
  const QUEUED: State := EMPTY.(locktimed := [(97, [WAITING])])

  lemma WaitingLocked()
    ensures PackageLocktime(WAITING, 95) == 97
  {
    var a, b := Expired(0, 97), Expired(1, 97);
    assert WAITING.inputs[1..] == b.inputs && b.inputs[1..] == [];
    assert SignedLocktime(b.inputs) == None && SignedLocktime(WAITING.inputs) == None;
    assert GreatestMinimum(b.inputs) == 97 && GreatestMinimum(WAITING.inputs) == 97;
  }

  lemma WaitingFormed()
    ensures QueueBag(QUEUED.locktimed) == multiset{OutPoint(1, 0), OutPoint(1, 1)}
  {
    var a, b := Expired(0, 97), Expired(1, 97);
    assert Outpoints(WAITING.inputs) == [OutPoint(1, 0), OutPoint(1, 1)];
    assert [WAITING][1..] == [] && QUEUED.locktimed[1..] == [];
    assert GroupBag([WAITING]) == Bag(WAITING.inputs) + GroupBag([]);
    assert QueueBag(QUEUED.locktimed) == GroupBag([WAITING]) + QueueBag([]);
  }

  // When every request has to wait and nothing in the queue is due, the queue is all there is.
  lemma AllWait(s: State, reqs: seq<Piece>, height: nat, merged: Package)
    requires Aggregate(DropDuplicates(s, reqs), if DropDuplicates(s, reqs)
        == [] then 0 else |DropDuplicates(s, reqs)| - 1, height)
             == [merged]
    requires PackageLocktime(merged, height) > height
    requires PopReady(Enqueue(s.locktimed, PackageLocktime(merged, height), merged), height)
             == ([], Enqueue(s.locktimed, PackageLocktime(merged, height), merged))
    ensures Preprocess(s, reqs, height) == ([], Enqueue(s.locktimed, PackageLocktime(merged, height), merged))
  {
    hide PackageLocktime, Enqueue, PopReady, Aggregate;
    var queue := Enqueue(s.locktimed, PackageLocktime(merged, height), merged);
    assert [merged][1..] == [];
    assert SplitByLocktime([merged], s.locktimed, height) == SplitByLocktime([], queue, height) == ([], queue);
    var none: seq<Package> := [];
    assert none + none == none;
  }

  lemma NotDue(q: Queue, height: nat)
    requires |q| == 1 && q[0].0 > height
    ensures PopReady(q, height) == ([], q)
  {
    assert q[1..] == [] && [q[0]] + [] == q;
  }

  lemma WaitingQueued()
    ensures CanRegister(EMPTY, [Expired(0, 97), Expired(1, 97)], 95, 95, NEVER)
    ensures Register(EMPTY, [Expired(0, 97), Expired(1, 97)], 95, 95, NEVER) == QUEUED
  {
    hide PackageLocktime, DropDuplicates, Aggregate, CanRequest;
    PairKept(97, 97);
    PairRequested(97, 97, 95);
    WaitingMerges();
    WaitingLocked();
    assert Enqueue([], 97, WAITING) == QUEUED.locktimed;
    NotDue(QUEUED.locktimed, 95);
    AllWait(EMPTY, [Expired(0, 97), Expired(1, 97)], 95, WAITING);
    assert NewIds(QUEUED, [], 95, 95, NEVER);
  }

  lemma WaitingMerges()
    ensures Aggregate([Expired(0, 97), Expired(1, 97)], 1, 95) == [WAITING]
  {
    var a, b := Expired(0, 97), Expired(1, 97);
    PieceLocktime(a, 95);
    PieceLocktime(b, 95);
    assert SignedLocktime(a.inputs[1..]) == None && SignedLocktime(b.inputs[1..]) == None;
    assert Merge(a, b, 95) == Some(WAITING);
    assert [a, b][..1] + [a, b][2..] == [a];
    assert MergeDown([a, b], 1, 0, 95) == [WAITING];
  }

  lemma RepeatNotSeen()
    ensures !IsDuplicate(QUEUED, Expired(0, 97))
  {
    assert Outpoints(WAITING.inputs) == [OutPoint(1, 0), OutPoint(1, 1)];
    assert Outpoints(Expired(0, 97).inputs) == [OutPoint(1, 0)];
  }

  // Two outputs wait for one locktime in one package. A second request for the first of them is
  // taken, and the output is queued twice.
  lemma RepeatIsQueuedTwice()
    ensures
      var first := Registering([Expired(0, 97), Expired(1, 97)], 95, 95, NEVER);
      && AllowedRun(EMPTY, [first]) && Run(EMPTY, [first]) == Some(QUEUED) && Consistent(QUEUED)
      && var twice := Register(QUEUED, [Expired(0, 97)], 95, 95, NEVER);
      QueueBag(twice.locktimed)[OutPoint(1, 0)] == 2 && !Consistent(twice)
  {
    hide CanRegister, Register, PackageLocktime, IsDuplicate;
    var first := Registering([Expired(0, 97), Expired(1, 97)], 95, 95, NEVER);
    WaitingQueued();
    assert [first][1..] == [];
    assert AllowedRun(QUEUED, []) && Run(QUEUED, []) == Some(QUEUED);
    EmptyIsConsistent();
    RunsStayConsistent(EMPTY, [first]);
    RepeatQueued();
  }

  lemma RepeatQueued()
    ensures
      var twice := Register(QUEUED, [Expired(0, 97)], 95, 95, NEVER);
      QueueBag(twice.locktimed)[OutPoint(1, 0)] == 2 && !Consistent(twice)
  {
    hide PackageLocktime, IsDuplicate, Aggregate, QueueBag, Bag, PopReady, Preprocess;
    var a := Expired(0, 97);
    RepeatNotSeen();
    WaitingFormed();
    PieceLocktime(a, 95);
    assert [a][1..] == [] && DropDuplicates(QUEUED, [a]) == [a];
    RepeatAlone(a);
    var queue := Enqueue(QUEUED.locktimed, 97, a);
    assert |queue| == 1 && queue[0].0 == 97;
    NotDue(queue, 95);
    AllWait(QUEUED, [a], 95, a);
    var twice := Register(QUEUED, [a], 95, 95, NEVER);
    assert twice.locktimed == queue;
    EnqueueBag(QUEUED.locktimed, 97, a);
    PieceBag(a);
    assert OutPoint(1, 0) in QueueBag(queue);
  }

  lemma RepeatAlone(a: Piece)
    ensures Aggregate([a], 0, 95) == [a]
  {
  }
}
