// What registering requests does, said of the requests alone: which are taken, how they are grouped,
// which wait for their locktime, and what each claim and link is.
module ClaimAccepted {
  import opened Common
  import opened Packages
  import opened ClaimState
  import opened ClaimInvariant
  import opened ClaimMature
  import opened ClaimRegister
  import opened ClaimUndone

  // ---- Which requests are taken ----

  // How many of the requests name the outpoint.
  ghost function Asked(reqs: seq<Piece>, o: OutPoint): nat {
    if reqs == [] then 0 else (if reqs[0].inputs[0].0 == o then 1 else 0) + Asked(reqs[1..], o)
  }

  // A timelocked package has just this one outpoint.
  ghost predicate QueuedAlone(q: Queue, o: OutPoint) {
    exists i, j :: 0 <= i < |q| && 0 <= j < |q[i].1| && |q[i].1[j].inputs| == 1 && q[i].1[j].inputs[0].0 == o
  }

  lemma DuplicateIs(s: State, p: Piece)
    ensures IsDuplicate(s, p) <==> p.inputs[0].0 in s.claimable || QueuedAlone(s.locktimed, p.inputs[0].0)
  {
    var o, q := p.inputs[0].0, s.locktimed;
    assert Outpoints(p.inputs) == [o];
    if QueuedAlone(q, o) {
      var i, j :| 0 <= i < |q| && 0 <= j < |q[i].1| && |q[i].1[j].inputs| == 1 && q[i].1[j].inputs[0].0 == o;
      assert Outpoints(q[i].1[j].inputs) == [o];
    }
    if LockedTwin(q, p) {
      var i, j :| 0 <= i < |q| && 0 <= j < |q[i].1| && Outpoints(q[i].1[j].inputs) == Outpoints(p.inputs);
      assert |q[i].1[j].inputs| == |Outpoints(q[i].1[j].inputs)| == 1;
      assert q[i].1[j].inputs[0].0 == Outpoints(q[i].1[j].inputs)[0];
    }
  }

  lemma {:induction false} KeptCount(s: State, reqs: seq<Piece>, o: OutPoint)
    ensures GroupBag(DropDuplicates(s, reqs))[o] ==
            if o in s.claimable || QueuedAlone(s.locktimed, o) then 0 else Asked(reqs, o)
  {
    hide IsDuplicate, QueuedAlone;
    if reqs != [] {
      KeptCount(s, reqs[1..], o);
      DuplicateIs(s, reqs[0]);
      assert Outpoints(reqs[0].inputs) == [reqs[0].inputs[0].0];
      assert ([reqs[0]] + DropDuplicates(s, reqs[1..]))[1..] == DropDuplicates(s, reqs[1..]);
    }
  }

  // Every request adds its outpoint to what is claimed or queued exactly when the outpoint is neither
  // being claimed already nor timelocked in a package of its own.
  lemma RequestsTakenExactlyWhen(s: State, reqs: seq<Piece>, height: nat, o: OutPoint)
    ensures
      var (ready, queue) := Preprocess(s, reqs, height);
      GroupBag(ready)[o] + QueueBag(queue)[o] ==
        QueueBag(s.locktimed)[o]
        + if o in s.claimable || QueuedAlone(s.locktimed, o) then 0 else Asked(reqs, o)
  {
    hide Preprocess, DropDuplicates, GroupBag, QueueBag, QueuedAlone;
    var (ready, queue) := Preprocess(s, reqs, height);
    RegisterConserves(s, reqs, height);
    KeptCount(s, reqs, o);
    assert (GroupBag(ready) + QueueBag(queue))[o] == GroupBag(ready)[o] + QueueBag(queue)[o];
  }

  // ---- How requests are grouped ----

  ghost function Flat(groups: seq<seq<Package>>): multiset<Package> {
    if groups == [] then multiset{} else multiset(groups[0]) + Flat(groups[1..])
  }

  ghost predicate Whole(group: seq<Package>, p: Package) {
    group != [] && p == JoinedAll(group[0], group[1..])
  }

  ghost predicate Mergeable(group: seq<Package>, height: nat) {
    forall i, j :: 0 <= i < j < |group| ==> CanMergeWith(group[i], group[j], height)
  }

  // The packages `u` are the groups `groups` of the requests, each joined into one.
  ghost predicate Stems(reqs: seq<Package>, groups: seq<seq<Package>>, u: seq<Package>, height: nat) {
    && |groups| == |u|
    && Flat(groups) == multiset(reqs)
    && (forall k :: 0 <= k < |u| ==> Whole(groups[k], u[k]) && Mergeable(groups[k], height))
  }

  // From `last` on, no package can merge with an earlier one.
  ghost predicate Settled(u: seq<Package>, last: nat, height: nat) {
    forall a, b :: 0 <= a < b < |u| && last <= b ==> !CanMergeWith(u[a], u[b], height)
  }

  lemma {:induction false} FlatConcat(a: seq<seq<Package>>, b: seq<seq<Package>>)
    ensures Flat(a + b) == Flat(a) + Flat(b)
  {
    if a == [] {
      assert a + b == b;
    } else {
      assert (a + b)[0] == a[0] && (a + b)[1..] == a[1..] + b;
      FlatConcat(a[1..], b);
    }
  }

  lemma FlatOne(g: seq<Package>)
    ensures Flat([g]) == multiset(g)
  {
    assert [g][1..] == [];
  }

  // Moving group `i` to the end of group `k` loses nothing.
  lemma FlatMoved(groups: seq<seq<Package>>, i: nat, k: nat)
    requires k < i < |groups|
    ensures Flat((groups[..i] + groups[i + 1..])[k := groups[k] + groups[i]]) == Flat(groups)
  {
    hide Flat;
    var a, b, c := groups[..k], groups[k + 1..i], groups[i + 1..];
    assert groups == a + [groups[k]] + b + [groups[i]] + c;
    assert (groups[..i] + groups[i + 1..])[k := groups[k] + groups[i]] == a + [groups[k] + groups[i]] + b + c;
    FlatConcat(a + [groups[k]] + b + [groups[i]], c);
    FlatConcat(a + [groups[k]] + b, [groups[i]]);
    FlatConcat(a + [groups[k]], b);
    FlatConcat(a, [groups[k]]);
    FlatConcat(a + [groups[k] + groups[i]] + b, c);
    FlatConcat(a + [groups[k] + groups[i]], b);
    FlatConcat(a, [groups[k] + groups[i]]);
    FlatOne(groups[k]);
    FlatOne(groups[i]);
    FlatOne(groups[k] + groups[i]);
    assert multiset(groups[k] + groups[i]) == multiset(groups[k]) + multiset(groups[i]);
  }

  lemma {:induction false} JoinedIn(p: Package, q: Package, more: seq<Package>)
    ensures JoinedAll(Joined(p, q), more) == Joined(p, JoinedAll(q, more))
    decreases more
  {
    if more != [] {
      assert p.inputs + q.inputs + more[0].inputs == p.inputs + (q.inputs + more[0].inputs);
      assert Joined(Joined(p, q), more[0]) == Joined(p, Joined(q, more[0]));
      JoinedIn(p, Joined(q, more[0]), more[1..]);
    }
  }

  lemma WholeOfTwo(a: seq<Package>, p: Package, b: seq<Package>, q: Package)
    requires Whole(a, p) && Whole(b, q)
    ensures Whole(a + b, Joined(p, q))
  {
    assert (a + b)[1..] == a[1..] + b && (a + b)[0] == a[0];
    JoinedConcat(a[0], a[1..], b);
    JoinedIn(p, b[0], b[1..]);
    assert JoinedAll(p, b) == JoinedAll(Joined(p, b[0]), b[1..]);
  }

  // A group merges with whatever its first member merges with.
  lemma {:induction false} WholeMergesAlike(p: Package, more: seq<Package>, x: Package, height: nat)
    requires forall q :: q in more ==> CanMergeWith(p, q, height)
    ensures CanMergeWith(JoinedAll(p, more), x, height) <==> CanMergeWith(p, x, height)
    decreases more
  {
    hide CanMergeWith;
    if more != [] {
      assert more[0] in more;
      JoinedMergesAlike(p, more[0], x, height);
      forall q | q in more[1..] ensures CanMergeWith(Joined(p, more[0]), q, height) {
        assert q in more;
        JoinedMergesAlike(p, more[0], q, height);
      }
      WholeMergesAlike(Joined(p, more[0]), more[1..], x, height);
    }
  }

  lemma JoinedMergesAlike(p: Package, q: Package, x: Package, height: nat)
    requires CanMergeWith(p, q, height)
    ensures CanMergeWith(Joined(p, q), x, height) <==> CanMergeWith(p, x, height)
  {
    hide CanMergeWith;
    MergedMergesAlike(p, q, x, height);
    assert Merge(p, q, height).value == Joined(p, q);
  }

  // Any member of a group merges with what the package does.
  lemma MemberMergesAlike(group: seq<Package>, p: Package, i: nat, x: Package, height: nat)
    requires Whole(group, p) && Mergeable(group, height) && i < |group|
    ensures CanMergeWith(group[i], x, height) <==> CanMergeWith(p, x, height)
  {
    hide CanMergeWith, JoinedAll;
    forall q | q in group[1..] ensures CanMergeWith(group[0], q, height) {
      var j :| 0 <= j < |group[1..]| && group[1..][j] == q;
      assert group[j + 1] == q;
    }
    WholeMergesAlike(group[0], group[1..], x, height);
    if i > 0 {
      CanMergeSymmetric(group[0], group[i], height);
      if CanMergeWith(group[0], x, height) { CanMergeTransitive(group[i], group[0], x, height); }
      if CanMergeWith(group[i], x, height) { CanMergeTransitive(group[0], group[i], x, height); }
    }
  }

  lemma MembersMerge(a: seq<Package>, p: Package, i: nat, b: seq<Package>, q: Package, j: nat, height: nat)
    requires Whole(a, p) && Mergeable(a, height) && i < |a| && Whole(b, q) && Mergeable(b, height) && j < |b|
    ensures CanMergeWith(a[i], b[j], height) <==> CanMergeWith(p, q, height)
  {
    hide CanMergeWith, Whole, Mergeable;
    MemberMergesAlike(a, p, i, b[j], height);
    CanMergeSymmetric(p, b[j], height);
    MemberMergesAlike(b, q, j, p, height);
    CanMergeSymmetric(q, p, height);
  }

  lemma AlikeTogether(a: seq<Package>, p: Package, b: seq<Package>, q: Package, height: nat)
    requires Whole(a, p) && Mergeable(a, height) && Whole(b, q) && Mergeable(b, height) && CanMergeWith(p, q, height)
    ensures Mergeable(a + b, height)
  {
    hide CanMergeWith, Whole;
    forall i, j | 0 <= i < j < |a + b| ensures CanMergeWith((a + b)[i], (a + b)[j], height) {
      if i < |a| <= j {
        MembersMerge(a, p, i, b, q, j - |a|, height);
      } else if j < |a| {
        assert (a + b)[i] == a[i] && (a + b)[j] == a[j];
      } else {
        assert (a + b)[i] == b[i - |a|] && (a + b)[j] == b[j - |a|];
      }
    }
  }

  lemma MergeStems(reqs: seq<Package>, groups: seq<seq<Package>>, u: seq<Package>, i: nat, k: nat, height: nat)
    requires Stems(reqs, groups, u, height) && k < i < |u| && CanMergeWith(u[k], u[i], height)
    ensures Stems(reqs, (groups[..i] + groups[i + 1..])[k := groups[k] + groups[i]],
                  (u[..i] + u[i + 1..])[k := Joined(u[k], u[i])], height)
  {
    hide CanMergeWith, Whole, Mergeable, Flat;
    FlatMoved(groups, i, k);
    AlikeTogether(groups[k], u[k], groups[i], u[i], height);
    WholeOfTwo(groups[k], u[k], groups[i], u[i]);
    var gs, v := (groups[..i] + groups[i + 1..])[k := groups[k] + groups[i]],
      (u[..i] + u[i + 1..])[k := Joined(u[k], u[i])];
    forall l | 0 <= l < |v| ensures Whole(gs[l], v[l]) && Mergeable(gs[l], height) {
      if l != k {
        var m := if l < i then l else l + 1;
        assert gs[l] == groups[m] && v[l] == u[m];
      }
    }
  }

  lemma MergeSettles(u: seq<Package>, i: nat, k: nat, height: nat)
    requires k < i < |u| && CanMergeWith(u[k], u[i], height) && Settled(u, i + 1, height)
    ensures Settled((u[..i] + u[i + 1..])[k := Joined(u[k], u[i])], i, height)
  {
    hide CanMergeWith;
    var v := (u[..i] + u[i + 1..])[k := Joined(u[k], u[i])];
    forall a, b | 0 <= a < b < |v| && i <= b ensures !CanMergeWith(v[a], v[b], height) {
      assert v[b] == u[b + 1];
      if a == k {
        JoinedMergesAlike(u[k], u[i], v[b], height);
      } else {
        assert v[a] == u[if a < i then a else a + 1];
      }
    }
  }

  lemma {:induction false} AggregateStems(reqs: seq<Package>, groups: seq<seq<Package>>, u: seq<Package>, i: nat,
                                          height: nat)
    returns (gs: seq<seq<Package>>)
    requires Stems(reqs, groups, u, height) && (i < |u| || i == 0) && Settled(u, i + 1, height)
    ensures Stems(reqs, gs, Aggregate(u, i, height), height) && Settled(Aggregate(u, i, height), 0, height)
    decreases i
  {
    hide CanMergeWith, Stems;
    if i == 0 {
      gs := groups;
    } else {
      MergeDownLength(u, i, 0, height);
      var k := MergeDownIs(u, i, 0, height);
      assert |groups| == |u| by { StemsLength(reqs, groups, u, height); }
      if k < i {
        MergeStems(reqs, groups, u, i, k, height);
        MergeSettles(u, i, k, height);
        assert Merge(u[k], u[i], height).value == Joined(u[k], u[i]);
        gs := AggregateStems(reqs, (groups[..i] + groups[i + 1..])[k := groups[k] + groups[i]],
                             MergeDown(u, i, 0, height), i - 1, height);
      } else {
        gs := AggregateStems(reqs, groups, u, i - 1, height);
      }
    }
  }

  lemma StemsLength(reqs: seq<Package>, groups: seq<seq<Package>>, u: seq<Package>, height: nat)
    requires Stems(reqs, groups, u, height)
    ensures |groups| == |u|
  {
  }

  ghost function Singles(reqs: seq<Package>): seq<seq<Package>> {
    if reqs == [] then [] else [[reqs[0]]] + Singles(reqs[1..])
  }

  lemma {:induction false} SinglesStem(reqs: seq<Package>, height: nat)
    ensures Stems(reqs, Singles(reqs), reqs, height)
  {
    if reqs != [] {
      SinglesStem(reqs[1..], height);
      assert reqs == [reqs[0]] + reqs[1..];
      assert [reqs[0]][1..] == [];
    }
  }

  // Aggregation sorts the requests into groups, each joined into one package: two requests end up in
  // one package exactly when they can be merged.
  lemma AggregatePartitions(reqs: seq<Package>, height: nat) returns (groups: seq<seq<Package>>)
    ensures
      var out := Aggregate(reqs, if reqs == [] then 0 else |reqs| - 1, height);
      && |groups| == |out| && Flat(groups) == multiset(reqs)
      && (forall k :: 0 <= k < |out| ==> groups[k] != [] && out[k] == JoinedAll(groups[k][0], groups[k][1..]))
    ensures forall k, l, i, j :: 0 <= k < |groups| && 0 <= l < |groups| && 0 <= i < |groups[k]| && 0 <= j < |groups[l]|
                                 && (k, i) != (l, j) ==>
              (k == l <==> CanMergeWith(groups[k][i], groups[l][j], height))
  {
    hide CanMergeWith, Aggregate, JoinedAll, Flat;
    SinglesStem(reqs, height);
    groups := AggregateStems(reqs, Singles(reqs), reqs, if reqs == [] then 0 else |reqs| - 1, height);
    var out := Aggregate(reqs, if reqs == [] then 0 else |reqs| - 1, height);
    forall k, l, i, j | 0 <= k < |groups| && 0 <= l < |groups| && 0 <= i < |groups[k]| && 0 <= j < |groups[l]|
                        && (k, i) != (l, j)
      ensures k == l <==> CanMergeWith(groups[k][i], groups[l][j], height)
    {
      CanMergeSymmetric(groups[k][i], groups[l][j], height);
      if k != l {
        MembersMerge(groups[k], out[k], i, groups[l], out[l], j, height);
        CanMergeSymmetric(out[k], out[l], height);
      }
    }
  }

  // ---- Which packages wait ----

  // The timelocked packages, whatever they wait for.
  ghost function Queued(q: Queue): multiset<Package> {
    if q == [] then multiset{} else multiset(q[0].1) + Queued(q[1..])
  }

  lemma {:induction false} EnqueueQueued(q: Queue, key: nat, p: Package)
    ensures Queued(Enqueue(q, key, p)) == Queued(q) + multiset{p}
  {
    if q == [] || key < q[0].0 {
      assert ([(key, [p])] + q)[1..] == q;
    } else if key == q[0].0 {
      assert ([(key, q[0].1 + [p])] + q[1..])[1..] == q[1..];
      assert multiset(q[0].1 + [p]) == multiset(q[0].1) + multiset{p};
    } else {
      EnqueueQueued(q[1..], key, p);
      assert ([q[0]] + Enqueue(q[1..], key, p))[1..] == Enqueue(q[1..], key, p);
    }
  }

  lemma {:induction false} SplitQueued(reqs: seq<Package>, q: Queue, height: nat)
    ensures
      var (ready, queue) := SplitByLocktime(reqs, q, height);
      multiset(ready) + Queued(queue) == multiset(reqs) + Queued(q)
    decreases reqs
  {
    hide PackageLocktime, Enqueue, Queued;
    if reqs != [] {
      MultisetFirst(reqs);
      var locktime := PackageLocktime(reqs[0], height);
      if locktime > height {
        EnqueueQueued(q, locktime, reqs[0]);
        SplitQueued(reqs[1..], Enqueue(q, locktime, reqs[0]), height);
      } else {
        SplitQueued(reqs[1..], q, height);
        var (ready, queue) := SplitByLocktime(reqs[1..], q, height);
        assert ([reqs[0]] + ready)[1..] == ready;
        MultisetFirst([reqs[0]] + ready);
        AddedAlike(multiset{reqs[0]}, multiset(ready), Queued(queue), multiset(reqs[1..]), Queued(q));
      }
    }
  }

  lemma AddedAlike(a: multiset<Package>, b: multiset<Package>, c: multiset<Package>, d: multiset<Package>,
                   e: multiset<Package>)
    requires b + c == d + e
    ensures (a + b) + c == (a + d) + e
  {
    assert (a + b) + c == a + (b + c);
  }

  lemma MultisetFirst(ps: seq<Package>)
    requires ps != []
    ensures multiset(ps) == multiset{ps[0]} + multiset(ps[1..])
  {
    assert ps == [ps[0]] + ps[1..];
  }

  lemma {:induction false} SplitItems(reqs: seq<Package>, q: Queue, height: nat, key: nat, p: Package)
    ensures QueueItems(SplitByLocktime(reqs, q, height).1)[(key, p)] ==
            QueueItems(q)[(key, p)] + if PackageLocktime(p, height) == key > height then multiset(reqs)[p] else 0
    decreases reqs
  {
    hide PackageLocktime, Enqueue, QueueItems;
    if reqs != [] {
      MultisetFirst(reqs);
      var locktime := PackageLocktime(reqs[0], height);
      if locktime > height {
        EnqueueItems(q, locktime, reqs[0]);
        SplitItems(reqs[1..], Enqueue(q, locktime, reqs[0]), height, key, p);
      } else {
        SplitItems(reqs[1..], q, height, key, p);
      }
    }
  }

  lemma {:induction false} GroupItemsKey(key: nat, ps: seq<Package>, k: nat, p: Package)
    ensures k != key ==> GroupItems(key, ps)[(k, p)] == 0
  {
    if ps != [] { GroupItemsKey(key, ps[1..], k, p); }
  }

  lemma {:induction false} PopQueued(q: Queue, height: nat)
    ensures
      var (ready, rest) := PopReady(q, height);
      multiset(ready) + Queued(rest) == Queued(q)
  {
    if q != [] {
      PopQueued(q[1..], height);
      var (ready, rest) := PopReady(q[1..], height);
      assert multiset(q[0].1 + ready) == multiset(q[0].1) + multiset(ready);
      assert ([q[0]] + rest)[1..] == rest;
    }
  }

  lemma {:induction false} PopItems(q: Queue, height: nat, key: nat, p: Package)
    ensures QueueItems(PopReady(q, height).1)[(key, p)] == if key <= height then 0 else QueueItems(q)[(key, p)]
  {
    hide GroupItems;
    if q != [] {
      PopItems(q[1..], height, key, p);
      var (ready, rest) := PopReady(q[1..], height);
      assert ([q[0]] + rest)[1..] == rest;
      GroupItemsKey(q[0].0, q[0].1, key, p);
    }
  }

  // What waits afterwards is what waited for more than the current height, and the aggregated
  // packages whose locktime lies above it, each under its locktime; everything else is claimed now.
  lemma WaitingExactlyWhen(s: State, reqs: seq<Piece>, height: nat)
    ensures
      var (ready, queue) := Preprocess(s, reqs, height);
      && multiset(ready) + Queued(queue) == multiset(Merged(s, reqs, height)) + Queued(s.locktimed)
      && forall key: nat, p :: QueueItems(queue)[(key, p)] ==
           if key <= height then 0
           else QueueItems(s.locktimed)[(key, p)]
                + if PackageLocktime(p, height) == key then multiset(Merged(s, reqs, height))[p] else 0
  {
    hide SplitByLocktime, PopReady, PackageLocktime, Queued, QueueItems, Aggregate, DropDuplicates;
    var merged := Merged(s, reqs, height);
    SplitQueued(merged, s.locktimed, height);
    var (now, queue) := SplitByLocktime(merged, s.locktimed, height);
    PopQueued(queue, height);
    forall key: nat, p
      ensures QueueItems(PopReady(queue, height).1)[(key, p)] ==
              if key <= height then 0
              else QueueItems(s.locktimed)[(key, p)]
                   + if PackageLocktime(p, height) == key then multiset(merged)[p] else 0
    {
      SplitItems(merged, s.locktimed, height, key, p);
      PopItems(queue, height, key, p);
    }
    assert multiset(now + PopReady(queue, height).0) == multiset(now) + multiset(PopReady(queue, height).0);
  }

  // ---- What the claims are ----

  // A claim with this id is built for the package.
  ghost predicate Made(reqs: seq<Package>, height: nat, oracle: Oracle, id: ClaimId, p: Package) {
    p in reqs && oracle(height, p).Some? && oracle(height, p).value.id == id
  }

  ghost predicate Fresh(s: State, reqs: seq<Package>) {
    && (forall p :: p in reqs ==> p.inputs != [])
    && (forall o :: o in GroupBag(reqs) ==> GroupBag(reqs)[o] == 1 && o !in s.claimable)
  }

  ghost predicate RequestsMade(s: State, t: State, reqs: seq<Package>, height: nat, oracle: Oracle) {
    && (forall id: ClaimId :: id in t.pending <==> id in s.pending || exists p :: Made(reqs, height, oracle, id, p))
    && (forall id: ClaimId :: id in s.pending ==> t.pending[id] == s.pending[id])
    && (forall id: ClaimId, p :: Made(reqs, height, oracle, id, p) ==>
          && id !in s.pending && id in t.pending
          && t.pending[id] ==
             p.(timer := oracle(height, p).value.timer, feerate := oracle(height, p).value.feerate))
  }

  ghost predicate LinkMade(reqs: seq<Package>, height: nat, oracle: Oracle, o: OutPoint) {
    exists id: ClaimId, p :: Made(reqs, height, oracle, id, p) && Holds(p, o)
  }

  ghost predicate LinksMade(s: State, t: State, reqs: seq<Package>, confHeight: nat, height: nat, oracle: Oracle) {
    && (forall o :: o in t.claimable <==> o in s.claimable || LinkMade(reqs, height, oracle, o))
    && (forall o :: o in s.claimable ==> t.claimable[o] == s.claimable[o])
    && LinksCarry(t, reqs, confHeight, height, oracle)
  }

  ghost predicate LinksCarry(t: State, reqs: seq<Package>, confHeight: nat, height: nat, oracle: Oracle) {
    forall id: ClaimId, p, x :: Made(reqs, height, oracle, id, p) && x in p.inputs ==>
      x.0 in t.claimable
      && t.claimable[x.0] == (id, match x.1.confirmationHeight case None => confHeight case Some(h) => h)
  }

  // Nothing of a fresh package is claimed yet, so a claim is built whenever one can be.
  lemma FreshGenerates(s: State, reqs: seq<Package>, height: nat, oracle: Oracle)
    requires reqs != [] && Fresh(s, reqs)
    ensures GenerateClaim(s, reqs[0], height, oracle) == oracle(height, reqs[0])
    ensures forall o :: Holds(reqs[0], o) ==> o !in s.claimable
    ensures Distinct(reqs[0].inputs)
  {
    hide GroupBag, Bag;
    var p := reqs[0];
    assert p in reqs;
    GroupBagCons(reqs);
    BagOuts(p.inputs);
    OutsAreIndices(p.inputs);
    forall o | Holds(p, o) ensures o !in s.claimable {
      assert o in GroupBag(reqs);
    }
    forall o ensures Bag(p.inputs)[o] <= 1 {
      assert GroupBag(reqs)[o] == Bag(p.inputs)[o] + GroupBag(reqs[1..])[o];
    }
    assert p.inputs[0].0 in Outs(p.inputs) && !HasConfirmedSpend(s, p.inputs[0].0);
  }

  lemma FreshRest(s: State, t: State, reqs: seq<Package>)
    requires reqs != [] && Fresh(s, reqs)
    requires forall o :: o in t.claimable ==> o in s.claimable || Holds(reqs[0], o)
    ensures Fresh(t, reqs[1..])
  {
    hide GroupBag, Bag;
    GroupBagCons(reqs);
    BagOuts(reqs[0].inputs);
    assert reqs == [reqs[0]] + reqs[1..];
    forall o | o in GroupBag(reqs[1..]) ensures GroupBag(reqs[1..])[o] == 1 && o !in t.claimable {
      assert GroupBag(reqs)[o] == Bag(reqs[0].inputs)[o] + GroupBag(reqs[1..])[o];
      assert o in GroupBag(reqs) && o !in Bag(reqs[0].inputs);
    }
  }

  // Links of a package without repeated outpoints carry the creation heights of its inputs.
  lemma {:induction false} LinkValues(m: Links, inputs: Inputs, id: ClaimId, confHeight: nat,
                                      x: (OutPoint, Solving))
    requires Distinct(inputs) && x in inputs
    ensures x.0 in Link(m, inputs, id, confHeight)
    ensures Link(m, inputs, id, confHeight)[x.0] == (id, CreationHeight(x.1, confHeight))
    decreases inputs
  {
    hide Bag;
    BagCons(inputs);
    BagOuts(inputs[1..]);
    var n := m[inputs[0].0 := (id, CreationHeight(inputs[0].1, confHeight))];
    LinkIs(n, inputs[1..], id, confHeight);
    assert inputs[0].0 !in Outs(inputs[1..]) by {
      assert Bag(inputs)[inputs[0].0] <= 1;
    }
    if x != inputs[0] {
      forall o ensures Bag(inputs[1..])[o] <= 1 {
        assert Bag(inputs)[o] <= 1;
      }
      LinkValues(n, inputs[1..], id, confHeight, x);
    }
  }

  lemma {:induction false} RegisterAllMakes(s: State, reqs: seq<Package>, confHeight: nat, height: nat, oracle: Oracle)
    requires Fresh(s, reqs) && NewIds(s, reqs, confHeight, height, oracle)
    ensures
      var t := RegisterAll(s, reqs, confHeight, height, oracle);
      RequestsMade(s, t, reqs, height, oracle) && LinksMade(s, t, reqs, confHeight, height, oracle)
    decreases reqs
  {
    hide GenerateClaim, Link, Fresh, RequestsMade, LinksMade;
    if reqs == [] {
      NothingMade(s, confHeight, height, oracle);
    } else {
      var u := RegisterOne(s, reqs[0], confHeight, height, oracle);
      OneMade(s, reqs, confHeight, height, oracle);
      RegisterAllMakes(u, reqs[1..], confHeight, height, oracle);
      var t := RegisterAll(s, reqs, confHeight, height, oracle);
      RequestsMadeMore(s, u, t, reqs, height, oracle);
      LinksMadeMore(s, u, t, reqs, confHeight, height, oracle);
    }
  }

  lemma NothingMade(s: State, confHeight: nat, height: nat, oracle: Oracle)
    ensures RequestsMade(s, s, [], height, oracle) && LinksMade(s, s, [], confHeight, height, oracle)
  {
  }

  lemma OneMade(s: State, reqs: seq<Package>, confHeight: nat, height: nat, oracle: Oracle)
    requires reqs != [] && Fresh(s, reqs) && NewId(s, reqs[0], height, oracle)
    ensures
      var u := RegisterOne(s, reqs[0], confHeight, height, oracle);
      && RequestsMade(s, u, [reqs[0]], height, oracle) && LinksMade(s, u, [reqs[0]], confHeight, height, oracle)
      && Fresh(u, reqs[1..])
  {
    hide Link, Fresh, Holds, Distinct, GenerateClaim, CreationHeight, LinksMade;
    var p := reqs[0];
    FreshGenerates(s, reqs, height, oracle);
    if oracle(height, p).Some? {
      assert Made([p], height, oracle, oracle(height, p).value.id, p);
    }
    OneLinked(s, p, confHeight, height, oracle);
    FreshRest(s, RegisterOne(s, p, confHeight, height, oracle), reqs);
  }

  lemma OneLinked(s: State, p: Package, confHeight: nat, height: nat, oracle: Oracle)
    requires GenerateClaim(s, p, height, oracle) == oracle(height, p) && Distinct(p.inputs)
    requires forall o :: Holds(p, o) ==> o !in s.claimable
    ensures
      var u := RegisterOne(s, p, confHeight, height, oracle);
      && LinksMade(s, u, [p], confHeight, height, oracle)
      && forall o :: o in u.claimable ==> o in s.claimable || Holds(p, o)
  {
    hide Link, Holds, Distinct, GenerateClaim, CreationHeight;
    var u := RegisterOne(s, p, confHeight, height, oracle);
    if oracle(height, p).Some? {
      var id := oracle(height, p).value.id;
      LinkIs(s.claimable, p.inputs, id, confHeight);
      HoldsIs(p);
      assert Made([p], height, oracle, id, p);
      forall x | x in p.inputs
        ensures x.0 in u.claimable && u.claimable[x.0] ==
                (id, match x.1.confirmationHeight case None => confHeight case Some(h) => h)
      {
        LinkValues(s.claimable, p.inputs, id, confHeight, x);
        CreationHeightIs(x.1, confHeight);
      }
    }
  }

  lemma HoldsIs(p: Package)
    ensures forall o :: Holds(p, o) <==> o in Outs(p.inputs)
  {
  }

  lemma CreationHeightIs(d: Solving, confHeight: nat)
    ensures CreationHeight(d, confHeight) == match d.confirmationHeight case None => confHeight case Some(h) => h
  {
  }

  lemma MadeFirst(reqs: seq<Package>, height: nat, oracle: Oracle)
    requires reqs != []
    ensures forall id: ClaimId, p :: Made(reqs, height, oracle, id, p) <==>
                            Made([reqs[0]], height, oracle, id, p) || Made(reqs[1..], height, oracle, id, p)
  {
    assert reqs == [reqs[0]] + reqs[1..];
  }

  lemma RequestsMadeMore(s: State, u: State, t: State, reqs: seq<Package>, height: nat, oracle: Oracle)
    requires reqs != []
    requires RequestsMade(s, u, [reqs[0]], height, oracle) && RequestsMade(u, t, reqs[1..], height, oracle)
    ensures RequestsMade(s, t, reqs, height, oracle)
  {
    MadeFirst(reqs, height, oracle);
    hide Made;
  }

  lemma LinksMadeMore(s: State, u: State, t: State, reqs: seq<Package>, confHeight: nat, height: nat, oracle: Oracle)
    requires reqs != []
    requires LinksMade(s, u, [reqs[0]], confHeight, height, oracle)
    requires LinksMade(u, t, reqs[1..], confHeight, height, oracle)
    ensures LinksMade(s, t, reqs, confHeight, height, oracle)
  {
    MadeFirst(reqs, height, oracle);
    forall o ensures LinkMade(reqs, height, oracle, o) <==>
                     LinkMade([reqs[0]], height, oracle, o) || LinkMade(reqs[1..], height, oracle, o)
    {
      LinkMadeFirst(reqs, height, oracle, o);
    }
    hide Made, LinkMade;
    LinksCarryMore(u, t, reqs, confHeight, height, oracle);
    hide LinksCarry;
  }

  lemma LinksCarryMore(u: State, t: State, reqs: seq<Package>, confHeight: nat, height: nat, oracle: Oracle)
    requires reqs != [] && forall o :: o in u.claimable ==> o in t.claimable && t.claimable[o] == u.claimable[o]
    requires LinksCarry(u, [reqs[0]], confHeight, height, oracle)
    requires LinksCarry(t, reqs[1..], confHeight, height, oracle)
    ensures LinksCarry(t, reqs, confHeight, height, oracle)
  {
    MadeFirst(reqs, height, oracle);
    hide Made;
  }

  lemma LinkMadeFirst(reqs: seq<Package>, height: nat, oracle: Oracle, o: OutPoint)
    requires reqs != []
    ensures LinkMade(reqs, height, oracle, o) <==>
            LinkMade([reqs[0]], height, oracle, o) || LinkMade(reqs[1..], height, oracle, o)
  {
    MadeFirst(reqs, height, oracle);
    hide Made, Holds;
  }

  // Registering new requests leaves what is pending as it is and makes one request of every package
  // that is ready and that a claim can be built for: the package with the timer and feerate of the
  // claim, under its id, with each outpoint linked to it at the height the output was created at, or
  // else at the given one. The events stay.
  lemma RegisteredIs(s: State, reqs: seq<Piece>, confHeight: nat, curHeight: nat, oracle: Oracle)
    requires Consistent(s) && CanRegister(s, reqs, confHeight, curHeight, oracle)
    ensures
      var (ready, queue) := Preprocess(s, reqs, curHeight);
      var t := Register(s, reqs, confHeight, curHeight, oracle);
      && RequestsMade(s, t, ready, curHeight, oracle) && LinksMade(s, t, ready, confHeight, curHeight, oracle)
      && t.locktimed == queue && t.events == s.events
  {
    hide NoDup, CanRequest, Preprocess, Inv, NewIds, RequestsMade, LinksMade, RegisterAll, FormedGroup, NewBag;
    NewIsPlaced(s, reqs, curHeight);
    var (ready, queue) := Preprocess(s, reqs, curHeight);
    NewIsFresh(s, ready, queue);
    RegisterAllMakes(s.(locktimed := queue), ready, confHeight, curHeight, oracle);
    RegisterAllAdds(s.(locktimed := queue), ready, confHeight, curHeight, oracle);
    MadeOf(s, s.(locktimed := queue), Register(s, reqs, confHeight, curHeight, oracle), ready, confHeight, curHeight,
           oracle);
  }

  lemma NewIsFresh(s: State, ready: seq<Package>, queue: Queue)
    requires FormedGroup(ready) && NewBag(GroupBag(ready), s.claimable, QueueBag(queue), Contested(s.events))
    ensures Fresh(s.(locktimed := queue), ready)
  {
    hide GroupBag, QueueBag, Uniform, Distinct;
  }

  lemma MadeOf(s: State, u: State, t: State, ready: seq<Package>, confHeight: nat, height: nat, oracle: Oracle)
    requires u.pending == s.pending && u.claimable == s.claimable
    requires RequestsMade(u, t, ready, height, oracle) && LinksMade(u, t, ready, confHeight, height, oracle)
    ensures RequestsMade(s, t, ready, height, oracle) && LinksMade(s, t, ready, confHeight, height, oracle)
  {
    hide Made, LinkMade;
  }
}
