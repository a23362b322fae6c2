// The claim tracker as the object it is: methods that update four collections in place, each proved
// to do what the functions of ClaimState say, and so to keep what is proved about them.
module OnchainTx {
  import opened Common
  import opened Packages
  import opened ClaimState
  import opened ClaimMature
  import opened ClaimReorg
  import opened ClaimTheorems
  import opened ClaimRegister
  import opened ClaimRuns

  class OnchainTxHandler {
    var pending: map<ClaimId, Package>
    var claimable: map<OutPoint, (ClaimId, nat)>
    var locktimed: Queue
    var events: seq<Entry>

    function View(): State
      reads this
    {
      State(pending, claimable, locktimed, events)
    }

    constructor ()
      ensures View() == EMPTY
      ensures Consistent(View())
    {
      pending, claimable, locktimed, events := map[], map[], [], [];
      new;
      EmptyIsConsistent();
    }

    // ---- Registering claim requests ----

    method UpdateClaimsViewFromRequests(reqs: seq<Piece>, confHeight: nat, curHeight: nat, oracle: Oracle)
      modifies this
      ensures View() == Register(old(View()), reqs, confHeight, curHeight, oracle)
      ensures Consistent(old(View())) && CanRegister(old(View()), reqs, confHeight, curHeight, oracle) ==>
                Consistent(View())
    {
      hide Consistent, CanRegister, DropDuplicates, Aggregate, SplitByLocktime, PopReady, RegisterAll;
      ghost var s := View();
      var kept := RetainNew(reqs);
      kept := AggregateAll(kept, curHeight);
      var ready := QueueTimelocked(kept, curHeight);
      var popped := PopLocked(curHeight);
      RegisterReady(ready + popped, confHeight, curHeight, oracle);
      if Consistent(s) && CanRegister(s, reqs, confHeight, curHeight, oracle) {
        RegisterKeepsConsistent(s, reqs, confHeight, curHeight, oracle);
      }
    }

    // The requests that are neither claimed already nor timelocked already.
    method RetainNew(reqs: seq<Piece>) returns (kept: seq<Package>)
      ensures kept == DropDuplicates(View(), reqs)
    {
      hide IsDuplicate;
      kept := [];
      var i := 0;
      assert reqs[0..] == reqs;
      while i < |reqs|
        invariant i <= |reqs|
        invariant kept + DropDuplicates(View(), reqs[i..]) == DropDuplicates(View(), reqs)
      {
        assert reqs[i..][0] == reqs[i] && reqs[i..][1..] == reqs[i + 1..];
        var duplicate := KnownRequest(reqs[i]);
        if !duplicate {
          kept := kept + [reqs[i]];
        }
        i := i + 1;
      }
    }

    // A request is known when its outpoint is claimed or a timelocked package has just that outpoint.
    method KnownRequest(req: Piece) returns (known: bool)
      ensures known == IsDuplicate(View(), req)
    {
      if req.inputs[0].0 in claimable { return true; }
      var i := 0;
      while i < |locktimed|
        invariant i <= |locktimed|
        invariant !LockedTwin(locktimed[..i], req)
      {
        var group := locktimed[i].1;
        var j := 0;
        while j < |group|
          invariant j <= |group|
          invariant forall k :: 0 <= k < j ==> Outpoints(group[k].inputs) != Outpoints(req.inputs)
        {
          if Outpoints(group[j].inputs) == Outpoints(req.inputs) { return true; }
          j := j + 1;
        }
        i := i + 1;
      }
      assert locktimed[..i] == locktimed;
      return false;
    }

    // Merge requests pairwise, from the last one down, as far as they can be merged.
    static method AggregateAll(reqs: seq<Package>, height: nat) returns (merged: seq<Package>)
      ensures merged == Aggregate(reqs, if reqs == [] then 0 else |reqs| - 1, height)
    {
      hide CanMergeWith;
      merged := reqs;
      if reqs == [] { return; }
      var i := |reqs| - 1;
      while i > 0
        invariant 0 <= i
        invariant i < |merged| || i == 0
        invariant Aggregate(merged, i, height) == Aggregate(reqs, |reqs| - 1, height)
        decreases i
      {
        MergeDownLength(merged, i, 0, height);
        merged := MergeInto(merged, i, height);
        i := i - 1;
      }
    }

    // Merge request `i` into the first earlier one that takes it.
    static method MergeInto(reqs: seq<Package>, i: nat, height: nat) returns (merged: seq<Package>)
      requires i < |reqs|
      ensures merged == MergeDown(reqs, i, 0, height)
    {
      hide CanMergeWith;
      merged := reqs;
      var j := 0;
      while j < i
        invariant j <= i && merged == reqs
        invariant MergeDown(reqs, i, j, height) == MergeDown(reqs, i, 0, height)
      {
        if CanMergeWith(merged[i], merged[j], height) {
          var taken := merged[i];
          var shorter := merged[..i] + merged[i + 1..];
          match Merge(shorter[j], taken, height) {
            case Some(m) =>
              merged := shorter[j := m];
              return;
            case None =>
              merged := shorter[..i] + [taken] + shorter[i..];
          }
        }
        j := j + 1;
      }
    }

    // Requests with a locktime to come go to the queue; the others are ready.
    method QueueTimelocked(reqs: seq<Package>, height: nat) returns (ready: seq<Package>)
      modifies this`locktimed
      ensures (ready, locktimed) == SplitByLocktime(reqs, old(locktimed), height)
    {
      hide PackageLocktime, Enqueue;
      ready := [];
      var i := 0;
      assert reqs[0..] == reqs;
      while i < |reqs|
        invariant i <= |reqs|
        invariant ready + SplitByLocktime(reqs[i..], locktimed, height).0
            == SplitByLocktime(reqs, old(locktimed), height).0
        invariant SplitByLocktime(reqs[i..], locktimed, height).1 == SplitByLocktime(reqs, old(locktimed), height).1
      {
        assert reqs[i..][0] == reqs[i] && reqs[i..][1..] == reqs[i + 1..];
        var locktime := PackageLocktime(reqs[i], height);
        if locktime > height {
          locktimed := Enqueue(locktimed, locktime, reqs[i]);
        } else {
          ghost var now := SplitByLocktime(reqs[i + 1..], locktimed, height).0;
          assert ready + ([reqs[i]] + now) == (ready + [reqs[i]]) + now;
          ready := ready + [reqs[i]];
        }
        i := i + 1;
      }
      assert ready + [] == ready;
    }

    // Take every package out of the queue whose locktime has come.
    method PopLocked(height: nat) returns (popped: seq<Package>)
      modifies this`locktimed
      ensures (popped, locktimed) == PopReady(old(locktimed), height)
    {
      popped := [];
      var remaining := [];
      var i := 0;
      assert locktimed[0..] == locktimed;
      while i < |locktimed|
        invariant i <= |locktimed| && locktimed == old(locktimed)
        invariant popped + PopReady(locktimed[i..], height).0 == PopReady(locktimed, height).0
        invariant remaining + PopReady(locktimed[i..], height).1 == PopReady(locktimed, height).1
      {
        assert locktimed[i..][0] == locktimed[i] && locktimed[i..][1..] == locktimed[i + 1..];
        ghost var (now, rest) := PopReady(locktimed[i + 1..], height);
        if locktimed[i].0 <= height {
          assert popped + (locktimed[i].1 + now) == (popped + locktimed[i].1) + now;
          popped := popped + locktimed[i].1;
        } else {
          assert remaining + ([locktimed[i]] + rest) == (remaining + [locktimed[i]]) + rest;
          remaining := remaining + [locktimed[i]];
        }
        i := i + 1;
      }
      assert popped + [] == popped && remaining + [] == remaining;
      locktimed := remaining;
    }

    // Generate a claim for each package and track the ones that got one.
    method RegisterReady(ready: seq<Package>, confHeight: nat, curHeight: nat, oracle: Oracle)
      modifies this`pending, this`claimable
      ensures View() == RegisterAll(old(View()), ready, confHeight, curHeight, oracle)
    {
      hide GenerateClaim;
      var i := 0;
      assert ready[0..] == ready;
      while i < |ready|
        invariant i <= |ready|
        invariant RegisterAll(View(), ready[i..], confHeight, curHeight, oracle)
               == RegisterAll(old(View()), ready, confHeight, curHeight, oracle)
      {
        assert ready[i..][0] == ready[i] && ready[i..][1..] == ready[i + 1..];
        ghost var next := RegisterOne(View(), ready[i], confHeight, curHeight, oracle);
        var claim := Generate(ready[i], curHeight, oracle);
        if claim.Some? {
          LinkOutpoints(ready[i].inputs, claim.value.id, confHeight);
          pending := pending[claim.value.id := ready[i].(timer := claim.value.timer, feerate := claim.value.feerate)];
        }
        assert View() == next;
        i := i + 1;
      }
    }

    method LinkOutpoints(inputs: Inputs, id: ClaimId, confHeight: nat)
      modifies this`claimable
      ensures claimable == Link(old(claimable), inputs, id, confHeight)
    {
      var i := 0;
      assert inputs[0..] == inputs;
      while i < |inputs|
        invariant i <= |inputs|
        invariant Link(claimable, inputs[i..], id, confHeight) == Link(old(claimable), inputs, id, confHeight)
      {
        assert inputs[i..][0] == inputs[i] && inputs[i..][1..] == inputs[i + 1..];
        claimable := claimable[inputs[i].0 := (id, CreationHeight(inputs[i].1, confHeight))];
        i := i + 1;
      }
    }

    method Generate(request: Package, height: nat, oracle: Oracle) returns (claim: Option<Claim>)
      ensures claim == GenerateClaim(View(), request, height, oracle)
    {
      if request.inputs == [] { return None; }
      var allConfirmed := true;
      var i := 0;
      while i < |request.inputs|
        invariant i <= |request.inputs|
        invariant allConfirmed <==> forall k :: 0 <= k < i ==> HasConfirmedSpend(View(), request.inputs[k].0)
      {
        if !HasConfirmedSpend(View(), request.inputs[i].0) {
          allConfirmed := false;
        }
        i := i + 1;
      }
      if allConfirmed { return None; }
      claim := oracle(height, request);
    }

    // ---- Seeing transactions ----

    method UpdateClaimsViewFromMatchedTxn(txs: seq<Tx>, confHeight: nat, hash: nat, curHeight: nat, oracle: Oracle)
      returns (panicked: bool)
      modifies this
      ensures panicked <==> Matched(old(View()), txs, confHeight, hash, curHeight, oracle).None?
      ensures !panicked ==> Some(View()) == Matched(old(View()), txs, confHeight, hash, curHeight, oracle)
      ensures Consistent(old(View())) && CanMatch(old(View()), txs, confHeight, curHeight) ==>
                !panicked && Consistent(View())
    {
      hide Consistent, CanMatch, SpendTxs, Mature, Rebump;
      ghost var s := View();
      if Consistent(s) && CanMatch(s, txs, confHeight, curHeight) {
        MatchedKeepsConsistent(s, txs, confHeight, hash, curHeight, oracle);
      }
      var bumps;
      panicked, bumps := ScanTransactions(txs, confHeight, hash);
      if panicked { return; }
      MatureEvents(curHeight);
      RebumpDue(bumps, curHeight, oracle);
    }

    method ScanTransactions(txs: seq<Tx>, confHeight: nat, hash: nat)
      returns (panicked: bool, bumps: map<ClaimId, Package>)
      modifies this
      ensures panicked <==> SpendTxs(old(View()), map[], txs, confHeight, hash).None?
      ensures !panicked ==> SpendTxs(old(View()), map[], txs, confHeight, hash) == Some((View(), bumps))
    {
      hide SpendTx;
      panicked, bumps := false, map[];
      var i := 0;
      assert txs[0..] == txs;
      while i < |txs|
        invariant i <= |txs|
        invariant SpendTxs(View(), bumps, txs[i..], confHeight, hash)
            == SpendTxs(old(View()), map[], txs, confHeight, hash)
      {
        assert txs[i..][0] == txs[i] && txs[i..][1..] == txs[i + 1..];
        panicked, bumps := ScanTransaction(txs[i], confHeight, hash, bumps);
        if panicked { return; }
        i := i + 1;
      }
      return false, bumps;
    }

    method ScanTransaction(tx: Tx, confHeight: nat, hash: nat, given: map<ClaimId, Package>)
      returns (panicked: bool, bumps: map<ClaimId, Package>)
      modifies this
      ensures panicked <==> SpendTx(old(View()), given, tx, confHeight, hash).None?
      ensures !panicked ==> SpendTx(old(View()), given, tx, confHeight, hash) == Some((View(), bumps))
    {
      hide SpendRequest, SpendQueued;
      var pieces := [];
      panicked, bumps := false, given;
      var i := 0;
      ghost var start := Scan(View(), [], given);
      assert tx.inputs[0..] == tx.inputs;
      while i < |tx.inputs|
        invariant i <= |tx.inputs|
        invariant SpendInputs(Scan(View(), pieces, bumps), tx, tx.inputs[i..], confHeight, hash)
               == SpendInputs(start, tx, tx.inputs, confHeight, hash)
      {
        assert tx.inputs[i..][0] == tx.inputs[i] && tx.inputs[i..][1..] == tx.inputs[i + 1..];
        panicked, pieces, bumps := SpendPending(tx, tx.inputs[i], confHeight, hash, pieces, bumps);
        if panicked { return; }
        pieces := SpendLocked(tx.inputs[i], pieces, bumps);
        i := i + 1;
      }
      RecordContentious(pieces, tx, confHeight, hash);
      return false, bumps;
    }

    // If the outpoint is tracked, settle the request tracking it or split the spent outpoints off it.
    method SpendPending(tx: Tx, o: OutPoint, confHeight: nat, hash: nat, found: seq<Piece>,
                        given: map<ClaimId, Package>)
      returns (panicked: bool, pieces: seq<Piece>, bumps: map<ClaimId, Package>)
      modifies this`pending, this`events
      ensures
        match SpendRequest(Scan(old(View()), found, given), tx, o, confHeight, hash)
        case None => panicked
        case Some(c) => !panicked && c == Scan(View(), pieces, bumps)
    {
      panicked, pieces, bumps := false, found, given;
      if o !in claimable { return; }
      var id := claimable[o].0;
      if id !in pending { return true, pieces, bumps; }
      var request := pending[id];
      var claimed := Entry(tx.txid, confHeight, hash, Claimed(id));
      var covered := true;
      var i := 0;
      while i < |request.inputs|
        invariant i <= |request.inputs| && covered
        invariant forall k :: 0 <= k < i ==> request.inputs[k].0 in tx.inputs
      {
        if request.inputs[i].0 !in tx.inputs {
          covered := false;
          break;
        }
        i := i + 1;
      }
      assert covered == CoveredBy(request, tx);
      if covered {
        if claimed !in events { events := events + [claimed]; }
        return;
      }
      var rest;
      rest, pieces := SplitOff(request, tx.inputs, claimed, found);
      pending := pending[id := rest];
      if |pieces| > |found| { bumps := bumps[id := rest]; }
    }

    method SplitOff(request: Package, os: seq<OutPoint>, claimed: Entry, found: seq<Piece>)
      returns (rest: Package, pieces: seq<Piece>)
      modifies this`events
      ensures (rest, events, pieces) == SplitInputs(request, old(events), found, os, claimed)
    {
      hide SplitPiece, SplitRest, Record;
      rest, pieces := request, found;
      var i := 0;
      assert os[0..] == os;
      while i < |os|
        invariant i <= |os|
        invariant SplitInputs(rest, events, pieces, os[i..], claimed)
            == SplitInputs(request, old(events), found, os, claimed)
      {
        assert os[i..][0] == os[i] && os[i..][1..] == os[i + 1..];
        var piece := SplitPiece(rest, os[i]);
        rest := SplitRest(rest, os[i]);
        if piece.Some? { pieces := pieces + [piece.value]; }
        if rest.inputs == [] { events := Record(events, claimed); }
        i := i + 1;
      }
    }

    // Split the outpoint off every package in the timelock queue.
    method SpendLocked(o: OutPoint, found: seq<Piece>, ghost bumps: map<ClaimId, Package>) returns (pieces: seq<Piece>)
      modifies this`locktimed
      ensures Scan(View(), pieces, bumps) == SpendQueued(Scan(old(View()), found, bumps), o)
    {
      hide SplitPackages;
      ghost var (queue, all) := SplitQueue(locktimed, o);
      pieces := found;
      var retained := [];
      var i := 0;
      assert locktimed[0..] == locktimed;
      while i < |locktimed|
        invariant i <= |locktimed| && locktimed == old(locktimed)
        invariant retained + SplitQueue(locktimed[i..], o).0 == queue
        invariant pieces + SplitQueue(locktimed[i..], o).1 == found + all
      {
        assert locktimed[i..][0] == locktimed[i] && locktimed[i..][1..] == locktimed[i + 1..];
        ghost var (after, others) := SplitQueue(locktimed[i + 1..], o);
        var kept, more := SplitGroup(locktimed[i].1, o);
        if kept != [] {
          assert retained + ([(locktimed[i].0, kept)] + after) == (retained + [(locktimed[i].0, kept)]) + after;
          retained := retained + [(locktimed[i].0, kept)];
        } else {
          assert [] + after == after;
        }
        assert pieces + (more + others) == (pieces + more) + others;
        pieces := pieces + more;
        i := i + 1;
      }
      assert retained + [] == retained && pieces + [] == pieces;
      locktimed := retained;
    }

    static method SplitGroup(packages: seq<Package>, o: OutPoint) returns (kept: seq<Package>, pieces: seq<Piece>)
      ensures (kept, pieces) == SplitPackages(packages, o)
    {
      hide SplitPiece, SplitRest;
      kept, pieces := [], [];
      var i := 0;
      assert packages[0..] == packages;
      while i < |packages|
        invariant i <= |packages|
        invariant kept + SplitPackages(packages[i..], o).0 == SplitPackages(packages, o).0
        invariant pieces + SplitPackages(packages[i..], o).1 == SplitPackages(packages, o).1
      {
        assert packages[i..][0] == packages[i] && packages[i..][1..] == packages[i + 1..];
        ghost var (after, more) := SplitPackages(packages[i + 1..], o);
        var piece, rest := SplitPiece(packages[i], o), SplitRest(packages[i], o);
        if piece.Some? {
          assert pieces + ([piece.value] + more) == (pieces + [piece.value]) + more;
          pieces := pieces + [piece.value];
        } else {
          assert [] + more == more;
        }
        if rest.inputs != [] {
          assert kept + ([rest] + after) == (kept + [rest]) + after;
          kept := kept + [rest];
        } else {
          assert [] + after == after;
        }
        i := i + 1;
      }
      assert kept + [] == kept && pieces + [] == pieces;
    }

    method RecordContentious(pieces: seq<Piece>, tx: Tx, confHeight: nat, hash: nat)
      modifies this`events
      ensures events == RecordPieces(old(events), pieces, tx, confHeight, hash)
    {
      var i := 0;
      assert pieces[0..] == pieces;
      while i < |pieces|
        invariant i <= |pieces|
        invariant RecordPieces(events, pieces[i..], tx, confHeight, hash)
            == RecordPieces(old(events), pieces, tx, confHeight, hash)
      {
        assert pieces[i..][0] == pieces[i] && pieces[i..][1..] == pieces[i + 1..];
        var entry := Entry(tx.txid, confHeight, hash, Contentious(pieces[i]));
        if entry !in events { events := events + [entry]; }
        i := i + 1;
      }
    }

    // Drop tracking for what is confirmed deeply enough; keep the other events waiting.
    method MatureEvents(height: nat)
      modifies this
      ensures View() == Mature(old(View()).(events := []), old(events), height)
    {
      hide MatureOne;
      var drained := events;
      events := [];
      ghost var start := View();
      var i := 0;
      assert drained[0..] == drained;
      while i < |drained|
        invariant i <= |drained|
        invariant Mature(View(), drained[i..], height) == Mature(start, drained, height)
      {
        assert drained[i..][0] == drained[i] && drained[i..][1..] == drained[i + 1..];
        if HasMatured(drained[i], height) {
          Retire(drained[i]);
        } else {
          events := events + [drained[i]];
        }
        i := i + 1;
      }
    }

    method Retire(entry: Entry)
      modifies this`pending, this`claimable
      ensures View() == MatureOne(old(View()), entry)
    {
      match entry.event {
        case Claimed(id) =>
          if id in pending {
            var request := pending[id];
            pending := pending - {id};
            Unlink(request.inputs);
          }
        case Contentious(p) =>
          claimable := claimable - {p.inputs[0].0};
      }
    }

    // Forget every outpoint of a request.
    method Unlink(inputs: Inputs)
      modifies this`claimable
      ensures claimable == old(claimable) - (set i | 0 <= i < |inputs| :: inputs[i].0)
    {
      var i := 0;
      while i < |inputs|
        invariant i <= |inputs|
        invariant claimable == old(claimable) - (set k | 0 <= k < i :: inputs[k].0)
      {
        claimable := claimable - {inputs[i].0};
        i := i + 1;
      }
    }

    // Regenerate the claims of the candidates and of every request whose timer has run out.
    method RebumpDue(bumps: map<ClaimId, Package>, height: nat, oracle: Oracle)
      modifies this`pending
      ensures View() == Rebump(old(View()), bumps, height, oracle)
    {
      hide Rebump, Rebumping, Regenerated;
      ghost var s := View();
      var due := map id | id in pending && height >= pending[id].timer :: pending[id];
      var candidates := bumps + due;
      var todo := candidates.Keys;
      RebumpingStarts(s, candidates, height, oracle);
      while todo != {}
        invariant todo <= candidates.Keys && View() == s.(pending := pending)
        invariant Rebumping(s, pending, candidates, todo, height, oracle)
        decreases todo
      {
        var id :| id in todo;
        RebumpingOn(s, pending, candidates, todo, id, height, oracle);
        todo := todo - {id};
        RebumpOne(id, candidates[id], height, oracle, s);
      }
      RebumpedIs(s, bumps, candidates, pending, height, oracle);
    }

    method RebumpOne(id: ClaimId, candidate: Package, height: nat, oracle: Oracle, ghost s: State)
      requires View() == s.(pending := pending) && pending.Keys == s.pending.Keys
      requires id in pending ==> pending[id] == s.pending[id]
      modifies this`pending
      ensures pending == if id in s.pending then old(pending)[id := Regenerated(s, id, candidate, height, oracle)]
                         else old(pending)
    {
      hide GenerateClaim;
      var claim := Generate(candidate, height, oracle);
      SameClaim(View(), s, candidate, height, oracle);
      if claim.Some? && id in pending {
        pending := pending[id := pending[id].(timer := claim.value.timer, feerate := claim.value.feerate)];
      }
    }

    // ---- Undoing on a reorganisation ----

    method BlocksDisconnected(height: nat, oracle: Oracle) returns (panicked: bool)
      modifies this
      ensures panicked <==> Disconnect(old(View()), height, oracle).None?
      ensures !panicked ==> Some(View()) == Disconnect(old(View()), height, oracle)
      ensures Consistent(old(View())) ==>
                && (panicked <==> !AllFit(old(pending), old(claimable), old(events), height))
                && (!panicked ==> (Consistent(View()) <==> NoneReturns(old(claimable), old(events), height)))
    {
      hide Consistent, AllFit, NoneReturns, Undo, Restore;
      ghost var s := View();
      if Consistent(s) {
        DisconnectPanicsExactlyWhen(s, height, oracle);
        if Disconnect(s, height, oracle).Some? {
          DisconnectKeepsConsistentExactlyWhen(s, height, oracle);
        }
      }
      var bumps;
      panicked, bumps := UndoEvents(height);
      if panicked { return; }
      RestoreCandidates(bumps, height, oracle);
      var gone := set o | o in claimable && claimable[o].1 > height :: claimable[o].0;
      claimable := map o | o in claimable && claimable[o].1 <= height :: claimable[o];
      pending := pending - gone;
    }

    method UndoEvents(height: nat) returns (panicked: bool, bumps: map<ClaimId, Package>)
      modifies this
      ensures panicked <==> Undo(old(View()).(events := []), map[], old(events), height).None?
      ensures !panicked ==> Undo(old(View()).(events := []), map[], old(events), height) == Some((View(), bumps))
    {
      hide UndoOne;
      var drained := events;
      events := [];
      panicked, bumps := false, map[];
      ghost var start := View();
      var i := 0;
      assert drained[0..] == drained;
      while i < |drained|
        invariant i <= |drained|
        invariant Undo(View(), bumps, drained[i..], height) == Undo(start, map[], drained, height)
      {
        assert drained[i..][0] == drained[i] && drained[i..][1..] == drained[i + 1..];
        panicked, bumps := UndoEvent(drained[i], bumps, height);
        if panicked { return; }
        i := i + 1;
      }
      return false, bumps;
    }

    method UndoEvent(entry: Entry, given: map<ClaimId, Package>, height: nat)
      returns (panicked: bool, bumps: map<ClaimId, Package>)
      modifies this
      ensures
        match UndoOne(old(View()), given, entry, height)
        case None => panicked
        case Some(r) => !panicked && r == (View(), bumps)
    {
      hide Merge, Enqueue, PackageLocktime;
      panicked, bumps := false, given;
      if entry.height > height {
        match entry.event {
          case Claimed(_) =>
          case Contentious(p) =>
            var locktime := PackageLocktime(p, 0);
            if locktime > height {
              locktimed := Enqueue(locktimed, locktime, p);
              return;
            }
            if p.inputs[0].0 in claimable {
              var id := claimable[p.inputs[0].0].0;
              if id in pending {
                match Merge(pending[id], p, height + 1) {
                  case None => return true, bumps;
                  case Some(m) =>
                    pending := pending[id := m];
                    bumps := bumps[id := m];
                }
              }
            }
        }
      } else {
        events := events + [entry];
      }
    }

    // Regenerate the claims of the requests that got outpoints back, and put them back.
    method RestoreCandidates(bumps: map<ClaimId, Package>, height: nat, oracle: Oracle)
      modifies this`pending
      ensures View() == Restore(old(View()), bumps, height, oracle)
    {
      hide Bumped, Bumping, Restore;
      ghost var s := View();
      var bumped := bumps;
      var todo := bumps.Keys;
      BumpingStarts(s, bumps, height, oracle);
      while todo != {}
        invariant todo <= bumps.Keys && View() == s && Bumping(s, bumps, bumped, todo, height, oracle)
        decreases todo
      {
        var id :| id in todo;
        BumpingOn(s, bumps, bumped, todo, id, height, oracle);
        todo := todo - {id};
        var p := BumpOne(bumps[id], height, oracle);
        bumped := bumped[id := p];
      }
      BumpedIs(s, bumps, bumped, height, oracle);
      pending := pending + bumped;
    }

    method BumpOne(candidate: Package, height: nat, oracle: Oracle) returns (p: Package)
      ensures p == Bumped(View(), candidate, height, oracle)
    {
      hide GenerateClaim;
      p := candidate;
      var claim := Generate(candidate, height, oracle);
      if claim.Some? { p := candidate.(timer := claim.value.timer, feerate := claim.value.feerate); }
    }

    method TransactionUnconfirmed(txid: nat, oracle: Oracle) returns (panicked: bool)
      modifies this
      ensures panicked <==> Unconfirm(old(View()), txid, oracle).None?
      ensures !panicked ==> Some(View()) == Unconfirm(old(View()), txid, oracle)
    {
      hide Disconnect, Consistent;
      var i := 0;
      assert events[0..] == events;
      while i < |events|
        invariant i <= |events| && View() == old(View())
        invariant FirstHeight(events[i..], txid) == FirstHeight(events, txid)
      {
        assert events[i..][0] == events[i] && events[i..][1..] == events[i + 1..];
        if events[i].txid == txid {
          if events[i].height == 0 { return true; }
          panicked := BlocksDisconnected(events[i].height - 1, oracle);
          return;
        }
        i := i + 1;
      }
      return false;
    }

    // ---- Abandoning a claim ----

    // The answer says whether anything was dropped that was still claimed or timelocked.
    method AbandonClaim(o: OutPoint) returns (foundClaim: bool, ghost found: Option<ClaimId>)
      modifies this
      ensures FindsClaim(old(View()), o, found) && View() == Abandon(old(View()), o, found)
      ensures foundClaim <==> claimable != old(claimable) || locktimed != old(locktimed)
      ensures Consistent(old(View())) ==> (Consistent(View()) <==> found.None? || Whole(old(View()), found.value))
    {
      hide Consistent, Whole;
      ghost var s := View();
      var id := FindClaim(o);
      found := id;
      if Consistent(s) {
        AbandonKeepsConsistentExactlyWhen(s, o, found);
      }
      foundClaim := false;
      if id.Some? {
        if id.value in pending {
          var request := pending[id.value];
          pending := pending - {id.value};
          foundClaim := exists i :: 0 <= i < |request.inputs| && request.inputs[i].0 in claimable;
          Unlink(request.inputs);
          UnlinkedSome(old(claimable), request.inputs);
        }
      } else {
        foundClaim := DropLocked(o);
      }
    }

    method FindClaim(o: OutPoint) returns (found: Option<ClaimId>)
      ensures FindsClaim(View(), o, found)
    {
      if o in claimable { return Some(claimable[o].0); }
      var todo := pending.Keys;
      while todo != {}
        invariant todo <= pending.Keys
        invariant forall id :: id in pending && id !in todo ==> !Holds(pending[id], o)
        decreases todo
      {
        var id :| id in todo;
        todo := todo - {id};
        if Holds(pending[id], o) { return Some(id); }
      }
      return None;
    }

    // Drop the timelocked packages that hold the outpoint; their groups stay.
    method DropLocked(o: OutPoint) returns (dropped: bool)
      modifies this`locktimed
      ensures locktimed == DropFromQueue(old(locktimed), o)
      ensures dropped <==> locktimed != old(locktimed)
    {
      hide DropHolding, DropFromQueue;
      dropped := false;
      var retained := [];
      var i := 0;
      assert locktimed[0..] == locktimed;
      while i < |locktimed|
        invariant i <= |locktimed| && locktimed == old(locktimed) && |retained| == i
        invariant retained + DropFromQueue(locktimed[i..], o) == DropFromQueue(locktimed, o)
        invariant dropped <==> retained != locktimed[..i]
      {
        DropFromQueueStep(retained, locktimed, i, o);
        assert locktimed[..i + 1] == locktimed[..i] + [locktimed[i]];
        var kept := DropGroup(locktimed[i].1, o);
        PushDiffers(retained, locktimed[..i], (locktimed[i].0, kept), locktimed[i]);
        if |kept| < |locktimed[i].1| { dropped := true; }
        retained := retained + [(locktimed[i].0, kept)];
        i := i + 1;
      }
      DropFromQueueNothing(locktimed[i..], o);
      assert locktimed[..i] == locktimed && retained + [] == retained;
      locktimed := retained;
    }

    static method DropGroup(packages: seq<Package>, o: OutPoint) returns (kept: seq<Package>)
      ensures kept == DropHolding(packages, o)
      ensures |kept| <= |packages| && (|kept| == |packages| ==> kept == packages)
    {
      hide Holds, DropHolding;
      kept := [];
      var i := 0;
      assert packages[0..] == packages;
      while i < |packages|
        invariant i <= |packages|
        invariant kept + DropHolding(packages[i..], o) == DropHolding(packages, o)
      {
        DropHoldingStep(kept, packages, i, o);
        if !Holds(packages[i], o) { kept := kept + [packages[i]]; }
        i := i + 1;
      }
      DropHoldingNothing(packages[i..], o);
      assert kept + [] == kept;
      DropHoldingLength(packages, o);
    }
  }

  lemma DropHoldingStep(kept: seq<Package>, packages: seq<Package>, i: nat, o: OutPoint)
    requires i < |packages|
    ensures kept + DropHolding(packages[i..], o) ==
            (if Holds(packages[i], o) then kept else kept + [packages[i]]) + DropHolding(packages[i + 1..], o)
  {
    hide Holds;
    assert packages[i..][0] == packages[i] && packages[i..][1..] == packages[i + 1..];
    var after := DropHolding(packages[i + 1..], o);
    assert kept + ([packages[i]] + after) == (kept + [packages[i]]) + after && [] + after == after;
  }

  lemma DropHoldingNothing(packages: seq<Package>, o: OutPoint)
    requires packages == []
    ensures DropHolding(packages, o) == []
  {
  }

  lemma {:induction false} DropHoldingLength(packages: seq<Package>, o: OutPoint)
    ensures |DropHolding(packages, o)| <= |packages|
    ensures |DropHolding(packages, o)| == |packages| ==> DropHolding(packages, o) == packages
  {
    hide Holds;
    if packages != [] {
      DropHoldingLength(packages[1..], o);
      assert packages == [packages[0]] + packages[1..];
    }
  }

  lemma DropFromQueueStep(retained: Queue, q: Queue, i: nat, o: OutPoint)
    requires i < |q|
    ensures retained + DropFromQueue(q[i..], o) ==
            retained + [(q[i].0, DropHolding(q[i].1, o))] + DropFromQueue(q[i + 1..], o)
  {
    hide DropHolding;
    assert q[i..][0] == q[i] && q[i..][1..] == q[i + 1..];
  }

  lemma DropFromQueueNothing(q: Queue, o: OutPoint)
    requires q == []
    ensures DropFromQueue(q, o) == []
  {
  }

  lemma PushDiffers<T>(a: seq<T>, b: seq<T>, x: T, y: T)
    requires |a| == |b|
    ensures a + [x] != b + [y] <==> a != b || x != y
  {
    assert (a + [x])[..|a|] == a && (b + [y])[..|b|] == b && (a + [x])[|a|] == x && (b + [y])[|b|] == y;
  }

  // What `Rebump` makes of one request.
  function Regenerated(s: State, id: ClaimId, candidate: Package, height: nat, oracle: Oracle): Package
    requires id in s.pending
  {
    match GenerateClaim(s, candidate, height, oracle)
    case None => s.pending[id]
    case Some(c) => s.pending[id].(timer := c.timer, feerate := c.feerate)
  }

  // The candidates that are not left over are regenerated, and the other requests as they were.
  ghost predicate Rebumping(s: State, pending: map<ClaimId, Package>, candidates: map<ClaimId, Package>,
                            todo: set<ClaimId>, height: nat, oracle: Oracle) {
    && pending.Keys == s.pending.Keys
    && forall id :: id in pending ==>
         pending[id] == if id in candidates && id !in todo then Regenerated(s, id, candidates[id], height, oracle)
                        else s.pending[id]
  }

  lemma RebumpingStarts(s: State, candidates: map<ClaimId, Package>, height: nat, oracle: Oracle)
    ensures Rebumping(s, s.pending, candidates, candidates.Keys, height, oracle)
  {
  }

  lemma RebumpingOn(s: State, pending: map<ClaimId, Package>, candidates: map<ClaimId, Package>, todo: set<ClaimId>,
                    id: ClaimId, height: nat, oracle: Oracle)
    requires Rebumping(s, pending, candidates, todo, height, oracle) && id in todo && id in candidates
    ensures pending.Keys == s.pending.Keys && (id in pending ==> pending[id] == s.pending[id])
    ensures id !in s.pending ==> Rebumping(s, pending, candidates, todo - {id}, height, oracle)
    ensures id in s.pending ==>
              Rebumping(s, pending[id := Regenerated(s, id, candidates[id], height, oracle)], candidates, todo - {id},
                        height, oracle)
  {
    hide Regenerated;
  }

  // The candidates that are not left over have got their new claims.
  ghost predicate Bumping(s: State, bumps: map<ClaimId, Package>, bumped: map<ClaimId, Package>, todo: set<ClaimId>,
                          height: nat, oracle: Oracle) {
    && bumped.Keys == bumps.Keys
    && forall id :: id in bumps ==>
         bumped[id] == if id in todo then bumps[id] else Bumped(s, bumps[id], height, oracle)
  }

  lemma BumpingStarts(s: State, bumps: map<ClaimId, Package>, height: nat, oracle: Oracle)
    ensures Bumping(s, bumps, bumps, bumps.Keys, height, oracle)
  {
  }

  lemma BumpingOn(s: State, bumps: map<ClaimId, Package>, bumped: map<ClaimId, Package>, todo: set<ClaimId>,
                  id: ClaimId, height: nat, oracle: Oracle)
    requires Bumping(s, bumps, bumped, todo, height, oracle) && id in todo && id in bumps
    ensures Bumping(s, bumps, bumped[id := Bumped(s, bumps[id], height, oracle)], todo - {id}, height, oracle)
  {
    hide Bumped;
  }

  lemma BumpedIs(s: State, bumps: map<ClaimId, Package>, bumped: map<ClaimId, Package>, height: nat, oracle: Oracle)
    requires Bumping(s, bumps, bumped, {}, height, oracle)
    ensures s.(pending := s.pending + bumped) == Restore(s, bumps, height, oracle)
  {
    hide Bumped;
    assert bumped == map id | id in bumps :: Bumped(s, bumps[id], height, oracle);
  }

  lemma RebumpedIs(s: State, bumps: map<ClaimId, Package>, candidates: map<ClaimId, Package>,
                   pending: map<ClaimId, Package>, height: nat, oracle: Oracle)
    requires candidates == bumps + map id | id in s.pending && height >= s.pending[id].timer :: s.pending[id]
    requires Rebumping(s, pending, candidates, {}, height, oracle)
    ensures s.(pending := pending) == Rebump(s, bumps, height, oracle)
  {
    hide GenerateClaim;
    var t := Rebump(s, bumps, height, oracle);
    forall id | id in pending ensures pending[id] == t.pending[id] {
    }
    assert pending == t.pending;
  }

  // Generating a claim does not look at the pending requests.
  lemma SameClaim(s: State, t: State, request: Package, height: nat, oracle: Oracle)
    requires s.claimable == t.claimable && s.events == t.events
    ensures GenerateClaim(s, request, height, oracle) == GenerateClaim(t, request, height, oracle)
  {
    assert forall i :: 0 <= i < |request.inputs| ==>
        (HasConfirmedSpend(s, request.inputs[i].0) <==> HasConfirmedSpend(t, request.inputs[i].0));
  }

  lemma UnlinkedSome(claimable: map<OutPoint, (ClaimId, nat)>, inputs: Inputs)
    ensures claimable != claimable - (set i | 0 <= i < |inputs| :: inputs[i].0) <==>
              exists i :: 0 <= i < |inputs| && inputs[i].0 in claimable
  {
    var less := claimable - (set i | 0 <= i < |inputs| :: inputs[i].0);
    if i :| 0 <= i < |inputs| && inputs[i].0 in claimable {
      assert inputs[i].0 !in less;
    } else {
      assert less == claimable;
    }
  }
}
