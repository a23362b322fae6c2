// What the "Inconsistencies" panic needs, step by step: when it is reached, and exactly when each
// step leaves no link to a request that is gone.
module ClaimLinks {
  import opened Common
  import opened Packages
  import opened ClaimState
  import opened ClaimInvariant
  import opened ClaimMature
  import opened ClaimReorg
  import opened ClaimTheorems
  import opened ClaimRuns

  // ---- When the panic is reached ----

  // The outpoint is claimable, but the request it names is gone.
  ghost predicate Dangling(pending: Requests, claimable: Links, o: OutPoint) {
    o in claimable && claimable[o].0 !in pending
  }

  // Same links, and requests of the same ids.
  ghost predicate SameIds(s: State, t: State) {
    t.claimable == s.claimable && t.pending.Keys == s.pending.Keys
  }

  lemma SpendRequestPanics(c: Scan, tx: Tx, o: OutPoint, at: nat, hash: nat)
    ensures SpendRequest(c, tx, o, at, hash).None? <==> Dangling(c.s.pending, c.s.claimable, o)
    ensures SpendRequest(c, tx, o, at, hash).Some? ==> SameIds(c.s, SpendRequest(c, tx, o, at, hash).value.s)
  {
  }

  lemma {:induction false} SpendInputsPanics(c: Scan, tx: Tx, os: seq<OutPoint>, at: nat, hash: nat)
    ensures SpendInputs(c, tx, os, at, hash).None? <==> exists o :: o in os && Dangling(c.s.pending, c.s.claimable, o)
    ensures SpendInputs(c, tx, os, at, hash).Some? ==> SameIds(c.s, SpendInputs(c, tx, os, at, hash).value.s)
    decreases os
  {
    hide SpendRequest;
    if os != [] {
      SpendRequestPanics(c, tx, os[0], at, hash);
      match SpendRequest(c, tx, os[0], at, hash)
      case None =>
      case Some(d) =>
        var e := SpendQueued(d, os[0]);
        SpendInputsPanics(e, tx, os[1..], at, hash);
        assert forall o :: Dangling(e.s.pending, e.s.claimable, o) <==> Dangling(c.s.pending, c.s.claimable, o);
        assert os == [os[0]] + os[1..];
    }
  }

  // A block is refused with a panic exactly when one of its transactions spends a dangling outpoint.
  lemma {:induction false} SpendTxsPanicsExactlyWhen(s: State, bumps: map<ClaimId, Package>, txs: seq<Tx>, at: nat,
                                                     hash: nat)
    ensures SpendTxs(s, bumps, txs, at, hash).None? <==>
              exists tx, o :: tx in txs && o in tx.inputs && Dangling(s.pending, s.claimable, o)
    ensures SpendTxs(s, bumps, txs, at, hash).Some? ==> SameIds(s, SpendTxs(s, bumps, txs, at, hash).value.0)
    decreases txs
  {
    hide SpendInputs, RecordPieces;
    if txs != [] {
      SpendInputsPanics(Scan(s, [], bumps), txs[0], txs[0].inputs, at, hash);
      assert txs == [txs[0]] + txs[1..];
      match SpendTx(s, bumps, txs[0], at, hash)
      case None =>
        assert txs[0] in txs;
      case Some(r) =>
        SpendTxsPanicsExactlyWhen(r.0, r.1, txs[1..], at, hash);
        assert forall o :: Dangling(r.0.pending, r.0.claimable, o) <==> Dangling(s.pending, s.claimable, o);
    }
  }

  // ---- Registering ----

  lemma {:induction false} LinkNames(m: Links, inputs: Inputs, id: ClaimId, confHeight: nat)
    ensures var l := Link(m, inputs, id, confHeight);
            forall o :: o in l ==> l[o].0 == id || (o in m && l[o] == m[o])
    decreases inputs
  {
    if inputs != [] {
      LinkNames(m[inputs[0].0 := (id, CreationHeight(inputs[0].1, confHeight))], inputs[1..], id, confHeight);
    }
  }

  lemma {:induction false} RegisterAllKeepsLinked(s: State, reqs: seq<Package>, confHeight: nat, curHeight: nat,
                                                  oracle: Oracle)
    requires Linked(s.pending, s.claimable)
    ensures var t := RegisterAll(s, reqs, confHeight, curHeight, oracle); Linked(t.pending, t.claimable)
    decreases reqs
  {
    hide GenerateClaim, Link;
    if reqs != [] {
      match GenerateClaim(s, reqs[0], curHeight, oracle) {
        case None =>
        case Some(c) => LinkNames(s.claimable, reqs[0].inputs, c.id, confHeight);
      }
      RegisterAllKeepsLinked(RegisterOne(s, reqs[0], confHeight, curHeight, oracle), reqs[1..], confHeight,
          curHeight, oracle);
    }
  }

  // ---- Seeing blocks ----

  // Whenever a claim matures, every outpoint linked to it is still in a request whose claim matures,
  // or its own spend matures too.
  ghost predicate MaturesWhole(s: State, height: nat) {
    forall o, e :: o in s.claimable && e in s.events && Retires(e, s.claimable[o].0, height) ==>
      Released(s, o, height)
  }

  ghost predicate Released(s: State, o: OutPoint, height: nat) {
    exists f :: f in s.events && Releases(s.pending, f, o, height)
  }

  lemma MatureKeepsLinkedExactlyWhen(s: State, height: nat)
    requires Linked(s.pending, s.claimable)
    ensures var t := Mature(s.(events := []), s.events, height);
            Linked(t.pending, t.claimable) <==> MaturesWhole(s, height)
  {
    hide Mature, Releases, Retires;
    var t := Mature(s.(events := []), s.events, height);
    MatureParts(s, t, height);
    if Linked(t.pending, t.claimable) {
      forall o, e | o in s.claimable && e in s.events &&
          Retires(e, s.claimable[o].0, height) ensures Released(s, o, height) {
        assert s.claimable[o].0 !in t.pending;
        assert o !in t.claimable;
      }
    }
    if MaturesWhole(s, height) {
      forall o | o in t.claimable ensures t.claimable[o].0 in t.pending {
        assert !Released(s, o, height);
      }
    }
  }

  // ---- Reorganisations ----

  // The links of each claim lie all above the height, or all not.
  ghost predicate OneSided(claimable: Links, height: nat) {
    forall o, p :: o in claimable && p in claimable && claimable[o].0 == claimable[p].0 && claimable[o].1 <= height ==>
      claimable[p].1 <= height
  }

  lemma SameHeightIsOneSided(claimable: Links, height: nat)
    requires SameHeight(claimable)
    ensures OneSided(claimable, height)
  {
    forall o, p | o in claimable && p in claimable && claimable[o].0 == claimable[p].0 && claimable[o].1 <= height
      ensures claimable[p].1 <= height
    {
      assert claimable[o].1 == claimable[p].1;
    }
  }

  lemma {:induction false} UndoKeepsIds(s: State, bumps: map<ClaimId, Package>, todo: seq<Entry>, height: nat)
    requires bumps.Keys <= s.pending.Keys
    ensures var r := Undo(s, bumps, todo, height);
            r.Some? ==> SameIds(s, r.value.0) && r.value.1.Keys <= s.pending.Keys
    decreases todo
  {
    hide Merge, Enqueue, PackageLocktime;
    if todo != [] {
      match UndoOne(s, bumps, todo[0], height)
      case None =>
      case Some(r) =>
        assert SameIds(s, r.0) && r.1.Keys <= r.0.pending.Keys;
        UndoKeepsIds(r.0, r.1, todo[1..], height);
    }
  }

  lemma EraseKeepsLinkedExactlyWhen(s: State, height: nat)
    requires Linked(s.pending, s.claimable)
    ensures var t := Erase(s, height); Linked(t.pending, t.claimable) <==> OneSided(s.claimable, height)
  {
    var t := Erase(s, height);
    if !OneSided(s.claimable, height) {
      var o, p :| o in s.claimable && p in s.claimable && s.claimable[o].0 == s.claimable[p].0
                  && s.claimable[o].1 <= height && s.claimable[p].1 > height;
      assert o in t.claimable && t.claimable[o].0 !in t.pending;
    }
  }

  lemma DisconnectKeepsLinkedExactlyWhen(s: State, height: nat, oracle: Oracle)
    requires Linked(s.pending, s.claimable) && Disconnect(s, height, oracle).Some?
    ensures var t := Disconnect(s, height, oracle).value;
            Linked(t.pending, t.claimable) <==> OneSided(s.claimable, height)
  {
    hide Undo, Erase, OneSided, GenerateClaim;
    UndoKeepsIds(s.(events := []), map[], s.events, height);
    var (t, bumps) := Undo(s.(events := []), map[], s.events, height).value;
    var u := Restore(t, bumps, height, oracle);
    assert u.pending.Keys == s.pending.Keys;
    EraseKeepsLinkedExactlyWhen(u, height);
  }

  // A reorganisation from a consistent tracker leaves no dangling link, even when it leaves an outpoint
  // both queued and linked.
  lemma ConsistentReorgKeepsLinked(s: State, height: nat, oracle: Oracle)
    requires Consistent(s) && Disconnect(s, height, oracle).Some?
    ensures var t := Disconnect(s, height, oracle).value; Linked(t.pending, t.claimable)
  {
    hide Disconnect, Linked, SameHeight, OneSided;
    ConsistentIsCore(s, height);
    CoreLinked(s);
    ConsistentHeights(s);
    SameHeightIsOneSided(s.claimable, height);
    DisconnectKeepsLinkedExactlyWhen(s, height, oracle);
  }

  // ---- Abandoning ----

  lemma AbandonKeepsLinkedExactlyWhen(s: State, o: OutPoint, found: Option<ClaimId>)
    requires Linked(s.pending, s.claimable)
    ensures var t := Abandon(s, o, found);
            Linked(t.pending, t.claimable) <==> found.None? || found.value !in s.pending || Whole(s, found.value)
  {
    hide Holds;
    if found.Some? && found.value in s.pending {
      var id, t := found.value, Abandon(s, o, found);
      OutsAreIndices(s.pending[id].inputs);
      assert t.claimable == s.claimable - Outs(s.pending[id].inputs);
      HoldsIs(s.pending[id]);
      if !Whole(s, id) {
        var x :| x in s.claimable && s.claimable[x].0 == id && !Holds(s.pending[id], x);
        assert x in t.claimable && t.claimable[x].0 !in t.pending;
      }
    }
  }

  lemma HoldsIs(p: Package)
    ensures forall o :: Holds(p, o) <==> o in Outs(p.inputs)
  {
  }

  // ---- All steps ----

  // What each operation asks of the state so as to leave no dangling link.
  ghost predicate LeavesLinked(s: State, step: Step) {
    match step
    case Registering(_, _, _, _) => true
    case Seeing(b, _) =>
      var r := SpendTxs(s, map[], b.txs, b.confHeight, b.hash);
      r.Some? ==> MaturesWhole(r.value.0, b.curHeight)
    case Disconnecting(height, _) => OneSided(s.claimable, height)
    case Unconfirming(txid, _) =>
      var h := FirstHeight(s.events, txid);
      h.Some? && h.value > 0 ==> OneSided(s.claimable, h.value - 1)
    case Abandoning(_, found) => found.Some? && found.value in s.pending ==> Whole(s, found.value)
  }

  // A step that does not panic leaves no dangling link exactly when: always, for registering; when
  // claims mature together with all that is linked to them, for a block; when no claim has links on
  // both sides of the new tip, for a reorganisation; when the request is whole, for abandoning it.
  lemma StepKeepsLinkedExactlyWhen(s: State, step: Step)
    requires Linked(s.pending, s.claimable) && Apply(s, step).Some?
    ensures var t := Apply(s, step).value; Linked(t.pending, t.claimable) <==> LeavesLinked(s, step)
  {
    hide Linked, Preprocess, SpendTxs, Mature, MaturesWhole, Disconnect, OneSided, Whole, Abandon, GenerateClaim;
    match step
    case Registering(reqs, confHeight, curHeight, oracle) =>
      var (ready, queue) := Preprocess(s, reqs, curHeight);
      RegisterAllKeepsLinked(s.(locktimed := queue), ready, confHeight, curHeight, oracle);
    case Seeing(b, oracle) =>
      SpendTxsPanicsExactlyWhen(s, map[], b.txs, b.confHeight, b.hash);
      var (t, bumps) := SpendTxs(s, map[], b.txs, b.confHeight, b.hash).value;
      SameIdsLinked(s, t);
      MatureKeepsLinkedExactlyWhen(t, b.curHeight);
      var u := Mature(t.(events := []), t.events, b.curHeight);
      SameIdsLinked(u, Rebump(u, bumps, b.curHeight, oracle));
    case Disconnecting(height, oracle) =>
      DisconnectKeepsLinkedExactlyWhen(s, height, oracle);
    case Unconfirming(txid, oracle) =>
      if FirstHeight(s.events, txid).Some? {
        DisconnectKeepsLinkedExactlyWhen(s, FirstHeight(s.events, txid).value - 1, oracle);
      }
    case Abandoning(o, found) =>
      AbandonKeepsLinkedExactlyWhen(s, o, found);
  }

  lemma SameIdsLinked(s: State, t: State)
    requires SameIds(s, t)
    ensures Linked(s.pending, s.claimable) <==> Linked(t.pending, t.claimable)
  {
  }

  // Each step as it is asked to be, and no reorganisation running into its own merge assertion.
  ghost predicate LinkedRun(s: State, steps: seq<Step>)
    decreases steps
  {
    steps == [] ||
    var r := Apply(s, steps[0]);
    && LeavesLinked(s, steps[0])
    && (steps[0].Disconnecting? || steps[0].Unconfirming? ==> r.Some?)
    && (r.Some? ==> LinkedRun(r.value, steps[1..]))
  }

  // In every such run, whatever is registered and spent, the panic is not reached. Nothing is
  // assumed here of requests, claim ids or the order of blocks.
  lemma {:induction false} LinkedRunsDoNotPanic(s: State, steps: seq<Step>)
    requires Linked(s.pending, s.claimable) && LinkedRun(s, steps)
    ensures Run(s, steps).Some? && Linked(Run(s, steps).value.pending, Run(s, steps).value.claimable)
    decreases steps
  {
    hide Linked, LeavesLinked, Register, Disconnect, Unconfirm, Abandon, Mature, Rebump, SpendTxs;
    if steps != [] {
      if steps[0].Seeing? {
        var b := steps[0].block;
        SpendTxsPanicsExactlyWhen(s, map[], b.txs, b.confHeight, b.hash);
        NothingDangles(s);
      }
      StepKeepsLinkedExactlyWhen(s, steps[0]);
      LinkedRunsDoNotPanic(Apply(s, steps[0]).value, steps[1..]);
    }
  }

  lemma NothingDangles(s: State)
    requires Linked(s.pending, s.claimable)
    ensures forall o :: !Dangling(s.pending, s.claimable, o)
  {
  }
}
