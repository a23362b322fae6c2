// Registering claim requests: nothing is lost or invented on the way to `generate_claim`, and the
// tracker stays consistent.
module ClaimRegister {
  import opened Common
  import opened Packages
  import opened ClaimState
  import opened ClaimInvariant
  import opened ClaimSpend
  import opened ClaimMature
  import opened ClaimReorg

  // ---- Dropping duplicates ----

  lemma {:induction false} DropDuplicatesKeeps(s: State, reqs: seq<Piece>)
    ensures forall p :: p in DropDuplicates(s, reqs) <==> p in reqs && |p.inputs| == 1 && !IsDuplicate(s, p)
  {
    if reqs != [] {
      DropDuplicatesKeeps(s, reqs[1..]);
      assert forall p :: p in reqs <==> p == reqs[0] || p in reqs[1..];
    }
  }

  // ---- Aggregating ----

  lemma {:induction false} GroupBagConcat(a: seq<Package>, b: seq<Package>)
    ensures GroupBag(a + b) == GroupBag(a) + GroupBag(b)
  {
    if a == [] {
      assert a + b == b;
    } else {
      assert (a + b)[0] == a[0] && (a + b)[1..] == a[1..] + b;
      GroupBagConcat(a[1..], b);
    }
  }

  lemma GroupBagUpdate(ps: seq<Package>, j: nat, p: Package)
    requires j < |ps|
    ensures GroupBag(ps[j := p]) + Bag(ps[j].inputs) == GroupBag(ps) + Bag(p.inputs)
  {
    hide GroupBag, Bag;
    GroupBagAround(ps[..j], ps[j], ps[j + 1..]);
    GroupBagAround(ps[..j], p, ps[j + 1..]);
    assert ps == ps[..j] + ([ps[j]] + ps[j + 1..]);
    assert ps[j := p] == ps[..j] + ([p] + ps[j + 1..]);
  }

  lemma GroupBagRemove(ps: seq<Package>, i: nat)
    requires i < |ps|
    ensures GroupBag(ps) == GroupBag(ps[..i] + ps[i + 1..]) + Bag(ps[i].inputs)
  {
    hide GroupBag, Bag;
    GroupBagAround(ps[..i], ps[i], ps[i + 1..]);
    GroupBagConcat(ps[..i], ps[i + 1..]);
    assert ps == ps[..i] + ([ps[i]] + ps[i + 1..]);
  }

  lemma GroupBagAround(a: seq<Package>, p: Package, b: seq<Package>)
    ensures GroupBag(a + ([p] + b)) == GroupBag(a) + GroupBag(b) + Bag(p.inputs)
  {
    hide Bag;
    GroupBagConcat(a, [p] + b);
    assert ([p] + b)[1..] == b;
    BagShuffle(GroupBag(a), GroupBag(b), Bag(p.inputs));
  }

  lemma BagCancel(a: multiset<OutPoint>, b: multiset<OutPoint>, c: multiset<OutPoint>)
    requires a + c == b + c
    ensures a == b
  {
    forall o ensures a[o] == b[o] {
      assert (a + c)[o] == (b + c)[o];
    }
  }

  lemma BagShuffle(a: multiset<OutPoint>, b: multiset<OutPoint>, c: multiset<OutPoint>)
    ensures a + (b + c) == (c + a) + b == (a + b) + c
  {
  }

  lemma {:induction false} MergeDownBag(reqs: seq<Package>, i: nat, j: nat, height: nat)
    requires j <= i < |reqs|
    ensures GroupBag(MergeDown(reqs, i, j, height)) == GroupBag(reqs)
    decreases i - j
  {
    hide GroupBag, Bag, CanMergeWith;
    if j < i {
      CanMergeSymmetric(reqs[i], reqs[j], height);
      if CanMergeWith(reqs[i], reqs[j], height) {
        MergedPairBag(reqs, i, j, height);
      } else {
        MergeDownBag(reqs, i, j + 1, height);
      }
    }
  }

  lemma MergedPairBag(reqs: seq<Package>, i: nat, j: nat, height: nat)
    requires j < i < |reqs| && CanMergeWith(reqs[j], reqs[i], height)
    ensures GroupBag((reqs[..i] + reqs[i + 1..])[j := Merge(reqs[j], reqs[i], height).value]) == GroupBag(reqs)
  {
    hide GroupBag, Bag;
    var m := Merge(reqs[j], reqs[i], height).value;
    var less := reqs[..i] + reqs[i + 1..];
    GroupBagRemove(reqs, i);
    GroupBagUpdate(less, j, m);
    BagConcat(reqs[j].inputs, reqs[i].inputs);
    BagCancel(GroupBag(less[j := m]), GroupBag(reqs), Bag(reqs[j].inputs));
  }

  // The in-place pairwise aggregation keeps every outpoint, as often as it occurred.
  lemma {:induction false} AggregateBag(reqs: seq<Package>, i: nat, height: nat)
    requires i < |reqs| || i == 0
    ensures GroupBag(Aggregate(reqs, i, height)) == GroupBag(reqs)
    decreases i
  {
    hide GroupBag, MergeDown;
    if i > 0 {
      MergeDownBag(reqs, i, 0, height);
      MergeDownLength(reqs, i, 0, height);
      AggregateBag(MergeDown(reqs, i, 0, height), i - 1, height);
    }
  }

  // ---- What packages look like before they are queued ----

  // The locktime an input asks for when its package is built at `height`.
  function LocktimeAt(d: Solving, height: nat): nat {
    match d.signedLocktime
    case Some(l) => l
    case None => Max(height, InputLocktime(d))
  }

  // All inputs of the package ask for one locktime at `height`.
  ghost predicate Even(p: Package, height: nat) {
    forall x :: x in p.inputs ==> LocktimeAt(x.1, height) == PackageLocktime(p, height)
  }

  ghost predicate Candidate(p: Package, height: nat) {
    p.inputs != [] && Agreed(p.inputs) && Even(p, height)
  }

  ghost predicate Candidates(ps: seq<Package>, height: nat) {
    forall p :: p in ps ==> Candidate(p, height)
  }

  lemma PieceIsCandidate(p: Piece, height: nat)
    ensures Candidate(p, height)
  {
    PieceLocktime(p, height);
    assert p.inputs[1..] == [];
    assert SignedLocktime([]) == None && GreatestMinimum([]) == 0;
    assert forall x :: x in p.inputs ==> x == p.inputs[0];
  }

  lemma MergeIsCandidate(p: Package, q: Package, height: nat)
    requires Candidate(p, height) && Candidate(q, height)
    requires Merge(p, q, height).Some?
    ensures Candidate(Merge(p, q, height).value, height)
  {
    var m := Merge(p, q, height).value;
    SignedOfAgreed(p.inputs);
    SignedOfAgreed(q.inputs);
    assert p.inputs[0] in p.inputs && q.inputs[0] in q.inputs;
    assert forall x :: x in m.inputs <==> x in p.inputs || x in q.inputs;
    assert Agreed(m.inputs);
    SignedOfAgreed(m.inputs);
    GreatestMinimumConcat(p.inputs, q.inputs);
    assert PackageLocktime(m, height) == PackageLocktime(p, height);
  }

  lemma {:induction false} MergeDownCandidates(reqs: seq<Package>, i: nat, j: nat, height: nat)
    requires j <= i < |reqs| && Candidates(reqs, height)
    ensures Candidates(MergeDown(reqs, i, j, height), height)
    decreases i - j
  {
    hide Candidate;
    if j < i {
      if CanMergeWith(reqs[i], reqs[j], height) {
        CanMergeSymmetric(reqs[i], reqs[j], height);
        assert reqs[i] in reqs && reqs[j] in reqs;
        MergeIsCandidate(reqs[j], reqs[i], height);
      } else {
        MergeDownCandidates(reqs, i, j + 1, height);
      }
    }
  }

  lemma {:induction false} AggregateCandidates(reqs: seq<Package>, i: nat, height: nat)
    requires i < |reqs| || i == 0
    requires Candidates(reqs, height)
    ensures Candidates(Aggregate(reqs, i, height), height)
    decreases i
  {
    if i > 0 {
      MergeDownLength(reqs, i, 0, height);
      MergeDownCandidates(reqs, i, 0, height);
      AggregateCandidates(MergeDown(reqs, i, 0, height), i - 1, height);
    }
  }

  // ---- Creation heights ----

  function Created(p: Package): Option<nat> {
    if p.inputs == [] then None else p.inputs[0].1.confirmationHeight
  }

  ghost predicate AllUniform(ps: seq<Package>) {
    forall i :: 0 <= i < |ps| ==> Uniform(ps[i].inputs)
  }

  // Of the first packages, up to `last`, those that can merge were created at one height.
  ghost predicate AgedAlike(ps: seq<Package>, last: nat, height: nat) {
    forall i, j :: 0 <= i < j <= last && j < |ps| && CanMergeWith(ps[i], ps[j], height) ==>
      Created(ps[i]) == Created(ps[j])
  }

  // The first package from `j` on that takes package `i`, if there is one, and what comes of it.
  lemma {:induction false} MergeDownIs(reqs: seq<Package>, i: nat, j: nat, height: nat) returns (k: nat)
    requires j <= i < |reqs|
    ensures j <= k <= i && (k < i ==> CanMergeWith(reqs[k], reqs[i], height))
    ensures k == i ==>
              MergeDown(reqs, i, j, height) == reqs
              && forall l :: j <= l < i ==> !CanMergeWith(reqs[l], reqs[i], height)
    ensures k < i ==>
              MergeDown(reqs, i, j, height)
              == (reqs[..i] + reqs[i + 1..])[k := Merge(reqs[k], reqs[i], height).value]
    decreases i - j
  {
    hide CanMergeWith;
    if j == i {
      k := i;
    } else {
      CanMergeSymmetric(reqs[i], reqs[j], height);
      if CanMergeWith(reqs[i], reqs[j], height) {
        k := j;
      } else {
        k := MergeDownIs(reqs, i, j + 1, height);
      }
    }
  }

  lemma MergedUniform(p: Package, q: Package, height: nat)
    requires CanMergeWith(p, q, height)
    ensures var m := Merge(p, q, height).value;
            && Created(m) == Created(p)
            && (Uniform(m.inputs) <==> Uniform(p.inputs) && Uniform(q.inputs) && Created(p) == Created(q))
  {
    var m := Merge(p, q, height).value;
    assert p.inputs[0] in p.inputs && q.inputs[0] in q.inputs;
    assert forall x :: x in m.inputs <==> x in p.inputs || x in q.inputs;
    if Uniform(p.inputs) && Uniform(q.inputs) && Created(p) == Created(q) {
      SignedOfAgreed(p.inputs);
      SignedOfAgreed(q.inputs);
    }
  }

  lemma MergeDownAges(reqs: seq<Package>, i: nat, height: nat)
    requires 0 < i < |reqs|
    ensures var u := MergeDown(reqs, i, 0, height);
            AllUniform(u) && AgedAlike(u, i - 1, height) <==> AllUniform(reqs) && AgedAlike(reqs, i, height)
  {
    hide CanMergeWith, Merge, Uniform, Created;
    var k := MergeDownIs(reqs, i, 0, height);
    if k < i {
      MergedUniform(reqs[k], reqs[i], height);
      var u := MergeDown(reqs, i, 0, height);
      MergedAges(reqs, u, i, k, height);
    }
  }

  lemma MergedAges(reqs: seq<Package>, u: seq<Package>, i: nat, k: nat, height: nat)
    requires k < i < |reqs| && CanMergeWith(reqs[k], reqs[i], height)
    requires u == (reqs[..i] + reqs[i + 1..])[k := Merge(reqs[k], reqs[i], height).value]
    ensures AllUniform(u) && AgedAlike(u, i - 1, height) <==> AllUniform(reqs) && AgedAlike(reqs, i, height)
  {
    hide CanMergeWith, Merge, Uniform, Created;
    MergedUniform(reqs[k], reqs[i], height);
    assert forall a :: 0 <= a < i && a != k ==> u[a] == reqs[a];
    assert forall a :: i < a < |reqs| ==> u[a - 1] == reqs[a];
    if AllUniform(u) && AgedAlike(u, i - 1, height) { AgesBefore(reqs, u, i, k, height); }
    if AllUniform(reqs) && AgedAlike(reqs, i, height) { AgesAfter(reqs, u, i, k, height); }
  }

  lemma AgesAfter(reqs: seq<Package>, u: seq<Package>, i: nat, k: nat, height: nat)
    requires k < i < |reqs| == |u| + 1 && CanMergeWith(reqs[k], reqs[i], height)
    requires u[k] == Merge(reqs[k], reqs[i], height).value
    requires forall a :: 0 <= a < i && a != k ==> u[a] == reqs[a]
    requires forall a :: i < a < |reqs| ==> u[a - 1] == reqs[a]
    requires AllUniform(reqs) && AgedAlike(reqs, i, height)
    ensures AllUniform(u) && AgedAlike(u, i - 1, height)
  {
    hide CanMergeWith, Merge, Uniform, Created;
    MergedUniform(reqs[k], reqs[i], height);
    forall a | 0 <= a < |u| ensures Uniform(u[a].inputs) {
      if a >= i { assert u[a] == reqs[a + 1]; }
    }
    forall a, b | 0 <= a < b <= i - 1 && b < |u| && CanMergeWith(u[a], u[b], height)
      ensures Created(u[a]) == Created(u[b])
    {
      MergesAsBefore(reqs, u, i, k, height, a, b);
    }
  }

  // Two of the first packages can merge exactly when they could before.
  lemma MergesAsBefore(reqs: seq<Package>, u: seq<Package>, i: nat, k: nat, height: nat, a: nat, b: nat)
    requires k < i < |reqs| == |u| + 1 && CanMergeWith(reqs[k], reqs[i], height)
    requires u[k] == Merge(reqs[k], reqs[i], height).value
    requires forall a :: 0 <= a < i && a != k ==> u[a] == reqs[a]
    requires a < b < i
    ensures CanMergeWith(u[a], u[b], height) <==> CanMergeWith(reqs[a], reqs[b], height)
  {
    hide CanMergeWith, Merge;
    if a == k {
      MergedMergesAlike(reqs[k], reqs[i], reqs[b], height);
    } else if b == k {
      MergedMergesAlike(reqs[k], reqs[i], reqs[a], height);
      CanMergeSymmetric(u[k], reqs[a], height);
      CanMergeSymmetric(reqs[k], reqs[a], height);
    }
  }

  lemma AgesBefore(reqs: seq<Package>, u: seq<Package>, i: nat, k: nat, height: nat)
    requires k < i < |reqs| == |u| + 1 && CanMergeWith(reqs[k], reqs[i], height)
    requires u[k] == Merge(reqs[k], reqs[i], height).value
    requires forall a :: 0 <= a < i && a != k ==> u[a] == reqs[a]
    requires forall a :: i < a < |reqs| ==> u[a - 1] == reqs[a]
    requires AllUniform(u) && AgedAlike(u, i - 1, height)
    ensures AllUniform(reqs) && AgedAlike(reqs, i, height)
  {
    hide CanMergeWith, Merge, Uniform, Created;
    MergedUniform(reqs[k], reqs[i], height);
    assert Uniform(u[k].inputs);
    forall a | 0 <= a < |reqs| ensures Uniform(reqs[a].inputs) {
      if a > i { assert Uniform(u[a - 1].inputs); } else if a != k && a != i { assert Uniform(u[a].inputs); }
    }
    forall a, b | 0 <= a < b <= i && CanMergeWith(reqs[a], reqs[b], height)
      ensures Created(reqs[a]) == Created(reqs[b])
    {
      if b < i {
        MergesAsBefore(reqs, u, i, k, height, a, b);
      } else if a != k {
        CanMergeSymmetric(reqs[k], reqs[i], height);
        CanMergeTransitive(reqs[a], reqs[i], reqs[k], height);
        CanMergeSymmetric(reqs[a], reqs[k], height);
        if a < k { MergesAsBefore(reqs, u, i, k, height, a, k); } else { MergesAsBefore(reqs, u, i, k, height, k, a); }
      }
    }
  }

  // Every aggregated package stems from outputs created at one height exactly when any two requests
  // that can merge do.
  lemma {:induction false} AggregateUniformExactlyWhen(reqs: seq<Package>, i: nat, height: nat)
    requires i < |reqs| || i == 0
    ensures AllUniform(Aggregate(reqs, i, height)) <==> AllUniform(reqs) && AgedAlike(reqs, i, height)
    decreases i
  {
    hide AllUniform, MergeDown;
    if i == 0 {
      assert AgedAlike(reqs, 0, height);
    } else {
      MergeDownLength(reqs, i, 0, height);
      MergeDownAges(reqs, i, height);
      AggregateUniformExactlyWhen(MergeDown(reqs, i, 0, height), i - 1, height);
    }
  }

  // ---- Queueing and popping ----

  lemma {:induction false} SplitByLocktimeBag(reqs: seq<Package>, q: Queue, height: nat)
    ensures var (ready, queue) := SplitByLocktime(reqs, q, height);
            GroupBag(ready) + QueueBag(queue) == GroupBag(reqs) + QueueBag(q)
    decreases reqs
  {
    hide Bag, Enqueue, PackageLocktime;
    if reqs != [] {
      var locktime := PackageLocktime(reqs[0], height);
      if locktime > height {
        SplitByLocktimeBag(reqs[1..], Enqueue(q, locktime, reqs[0]), height);
        EnqueueBag(q, locktime, reqs[0]);
        BagShuffle(GroupBag(reqs[1..]), QueueBag(q), Bag(reqs[0].inputs));
      } else {
        SplitByLocktimeBag(reqs[1..], q, height);
        var (ready, queue) := SplitByLocktime(reqs[1..], q, height);
        assert ([reqs[0]] + ready)[1..] == ready;
        BagShuffle(GroupBag(ready), QueueBag(queue), Bag(reqs[0].inputs));
        BagShuffle(GroupBag(reqs[1..]), QueueBag(q), Bag(reqs[0].inputs));
      }
    }
  }

  lemma {:induction false} PopReadyBag(q: Queue, height: nat)
    ensures var (ready, rest) := PopReady(q, height);
            GroupBag(ready) + QueueBag(rest) == QueueBag(q)
  {
    if q != [] {
      PopReadyBag(q[1..], height);
      var (ready, rest) := PopReady(q[1..], height);
      GroupBagConcat(q[0].1, ready);
      assert ([q[0]] + rest)[1..] == rest;
    }
  }

  // Whatever is handed to `generate_claim` or stays timelocked is exactly what was timelocked plus
  // the requests that were not duplicates, each outpoint as often as before.
  lemma RegisterConserves(s: State, reqs: seq<Piece>, height: nat)
    ensures var (ready, queue) := Preprocess(s, reqs, height);
            GroupBag(ready) + QueueBag(queue) == GroupBag(DropDuplicates(s, reqs)) + QueueBag(s.locktimed)
  {
    hide DropDuplicates, Aggregate, SplitByLocktime, PopReady, GroupBag, QueueBag;
    var kept := DropDuplicates(s, reqs);
    var n := if kept == [] then 0 else |kept| - 1;
    AggregateBag(kept, n, height);
    var merged := Aggregate(kept, n, height);
    SplitByLocktimeBag(merged, s.locktimed, height);
    var (now, queue) := SplitByLocktime(merged, s.locktimed, height);
    PopReadyBag(queue, height);
    GroupBagConcat(now, PopReady(queue, height).0);
  }

  ghost predicate KeysAbove(q: Queue, height: nat) {
    forall i :: 0 <= i < |q| ==> q[i].0 > height
  }

  lemma {:induction false} PopReadyKeys(q: Queue, height: nat)
    ensures KeysAbove(PopReady(q, height).1, height)
  {
    if q != [] {
      PopReadyKeys(q[1..], height);
    }
  }

  ghost predicate DueBy(ps: seq<Package>, height: nat) {
    forall p :: p in ps ==> PackageLocktime(p, height) <= height && PackageLocktime(p, 0) <= height
  }

  lemma LocktimeGrows(p: Package, height: nat)
    ensures PackageLocktime(p, 0) <= PackageLocktime(p, height)
  {
  }

  lemma LevelDue(p: Package, key: nat, height: nat)
    requires WellFormed(p) && LevelInputs(p.inputs, key) && key <= height
    ensures PackageLocktime(p, height) <= height && PackageLocktime(p, 0) <= height
  {
    SignedOfAgreed(p.inputs);
    assert p.inputs[0] in p.inputs;
    if p.inputs[0].1.signedLocktime.None? {
      GreatestMinimumLevel(p.inputs, key);
    }
  }

  lemma {:induction false} GreatestMinimumLevel(inputs: Inputs, key: nat)
    requires Uniform(inputs) && LevelInputs(inputs, key)
    requires inputs != [] ==> inputs[0].1.signedLocktime.None?
    ensures GreatestMinimum(inputs) <= key
  {
    if inputs != [] {
      assert inputs[0] in inputs;
      assert forall x :: x in inputs[1..] ==> x in inputs;
      GreatestMinimumLevel(inputs[1..], key);
    }
  }

  lemma {:induction false} PopReadyDue(q: Queue, height: nat)
    requires FormedQueue(q)
    ensures var (ready, rest) := PopReady(q, height);
            DueBy(ready, height) && FormedGroup(ready) && FormedQueue(rest)
  {
    if q != [] {
      PopReadyDue(q[1..], height);
      if q[0].0 <= height {
        forall p | p in q[0].1 ensures PackageLocktime(p, height) <= height && PackageLocktime(p, 0) <= height {
          assert FormedGroup(q[0].1) && LevelGroup(q[0].1, q[0].0);
          LevelDue(p, q[0].0, height);
        }
      }
    }
  }

  // The groups whose locktime has come hold packages of just that locktime.
  ghost predicate LowFormed(q: Queue, height: nat) {
    forall i :: 0 <= i < |q| && q[i].0 <= height ==> FormedGroup(q[i].1) && LevelGroup(q[i].1, q[i].0)
  }

  lemma {:induction false} EnqueueLow(q: Queue, key: nat, p: Package, height: nat)
    requires LowFormed(q, height) && key > height
    ensures LowFormed(Enqueue(q, key, p), height)
  {
    hide FormedGroup, LevelGroup;
    if q != [] && key > q[0].0 {
      EnqueueLow(q[1..], key, p, height);
      var t := Enqueue(q, key, p);
      assert t[1..] == Enqueue(q[1..], key, p);
    }
  }

  lemma {:induction false} PopLowDue(q: Queue, height: nat)
    requires LowFormed(q, height)
    ensures DueBy(PopReady(q, height).0, height)
  {
    if q != [] {
      PopLowDue(q[1..], height);
      if q[0].0 <= height {
        forall p | p in q[0].1 ensures PackageLocktime(p, height) <= height && PackageLocktime(p, 0) <= height {
          assert FormedGroup(q[0].1) && LevelGroup(q[0].1, q[0].0);
          LevelDue(p, q[0].0, height);
        }
      }
    }
  }

  lemma {:induction false} SplitDue(reqs: seq<Package>, q: Queue, height: nat)
    requires LowFormed(q, height)
    ensures DueBy(SplitByLocktime(reqs, q, height).0, height) && LowFormed(SplitByLocktime(reqs, q, height).1, height)
    decreases reqs
  {
    hide PackageLocktime, LowFormed;
    if reqs != [] {
      LocktimeGrows(reqs[0], height);
      var locktime := PackageLocktime(reqs[0], height);
      if locktime > height {
        EnqueueLow(q, locktime, reqs[0], height);
        SplitDue(reqs[1..], Enqueue(q, locktime, reqs[0]), height);
      } else {
        SplitDue(reqs[1..], q, height);
      }
    }
  }

  // Whatever is requested: every package handed to `generate_claim` has its locktime reached, and
  // every one still timelocked has not.
  lemma ReadyIsDue(s: State, reqs: seq<Piece>, height: nat)
    requires FormedQueue(s.locktimed)
    ensures DueBy(Preprocess(s, reqs, height).0, height) && KeysAbove(Preprocess(s, reqs, height).1, height)
  {
    hide PackageLocktime, FormedGroup, LevelGroup;
    var kept := DropDuplicates(s, reqs);
    var merged := Aggregate(kept, if kept == [] then 0 else |kept| - 1, height);
    SplitDue(merged, s.locktimed, height);
    var queue := SplitByLocktime(merged, s.locktimed, height).1;
    PopLowDue(queue, height);
    PopReadyKeys(queue, height);
  }

  lemma EvenIsLevel(p: Package, height: nat)
    requires Even(p, height) && PackageLocktime(p, height) > height
    ensures LevelInputs(p.inputs, PackageLocktime(p, height))
  {
  }

  lemma {:induction false} SplitByLocktimeFormed(reqs: seq<Package>, q: Queue, height: nat)
    requires FormedQueue(q) && Candidates(reqs, height) && FormedGroup(reqs)
    ensures var (ready, queue) := SplitByLocktime(reqs, q, height);
            FormedQueue(queue) && FormedGroup(ready) && DueBy(ready, height)
    decreases reqs
  {
    hide FormedQueue, WellFormed, Even, PackageLocktime, LevelInputs;
    if reqs != [] {
      var p := reqs[0];
      assert p in reqs && Candidate(p, height);
      assert Candidates(reqs[1..], height) && FormedGroup(reqs[1..]);
      LocktimeGrows(p, height);
      var locktime := PackageLocktime(p, height);
      if locktime > height {
        EvenIsLevel(p, height);
        EnqueueFormed(q, locktime, p);
        SplitByLocktimeFormed(reqs[1..], Enqueue(q, locktime, p), height);
      } else {
        SplitByLocktimeFormed(reqs[1..], q, height);
      }
    }
  }

  // ---- The requests callers may make ----

  ghost predicate NewBag(bag: multiset<OutPoint>, claimable: Links, queued: multiset<OutPoint>,
                         contested: set<OutPoint>) {
    forall o :: o in bag ==> bag[o] == 1 && o !in claimable && o !in queued && o !in contested
  }

  // Of the requests that are not dropped as duplicates, those that are merged concern outputs created
  // at one height.
  ghost predicate CreatedTogether(s: State, reqs: seq<Piece>, height: nat) {
    forall p, q :: p in DropDuplicates(s, reqs) && q in DropDuplicates(s, reqs) && CanMergeWith(p, q, height) ==>
      Created(p) == Created(q)
  }

  // Those that are not dropped as duplicates name distinct outpoints that are not timelocked inside an
  // aggregated package and are not awaiting the maturity of another spend.
  ghost predicate AllNew(s: State, reqs: seq<Piece>) {
    NewBag(GroupBag(DropDuplicates(s, reqs)), map[], QueueBag(s.locktimed), Contested(s.events))
  }

  ghost predicate CanRequest(s: State, reqs: seq<Piece>, height: nat) {
    CreatedTogether(s, reqs, height) && AllNew(s, reqs)
  }

  lemma {:induction false} GroupHolds(ps: seq<Package>, o: OutPoint) returns (p: Package)
    requires o in GroupBag(ps)
    ensures p in ps && Holds(p, o)
  {
    BagOuts(ps[0].inputs);
    if o in Bag(ps[0].inputs) {
      p := ps[0];
    } else {
      p := GroupHolds(ps[1..], o);
    }
  }

  lemma KeptNotClaimable(s: State, reqs: seq<Piece>)
    ensures forall o :: o in GroupBag(DropDuplicates(s, reqs)) ==> o !in s.claimable
  {
    forall o | o in GroupBag(DropDuplicates(s, reqs)) ensures o !in s.claimable {
      var p := GroupHolds(DropDuplicates(s, reqs), o);
      DropDuplicatesKeeps(s, reqs);
      assert Outs(p.inputs[1..]) == {};
    }
  }

  lemma {:induction false} DistinctGroup(ps: seq<Package>)
    requires forall o :: GroupBag(ps)[o] <= 1
    requires forall p :: p in ps ==> p.inputs != [] && Uniform(p.inputs)
    ensures FormedGroup(ps)
  {
    hide Uniform, GroupBag, Bag;
    if ps != [] {
      GroupBagCons(ps);
      DistinctGroup(ps[1..]);
      assert Distinct(ps[0].inputs);
      assert ps == [ps[0]] + ps[1..];
    }
  }

  lemma KeptCandidates(s: State, reqs: seq<Piece>, height: nat)
    ensures Candidates(DropDuplicates(s, reqs), height)
    ensures AllUniform(DropDuplicates(s, reqs))
  {
    DropDuplicatesKeeps(s, reqs);
    forall p | p in DropDuplicates(s, reqs) ensures Candidate(p, height) && Uniform(p.inputs) {
      PieceIsCandidate(p, height);
      assert forall x :: x in p.inputs ==> x == p.inputs[0];
    }
  }

  // The requests after aggregation.
  function Merged(s: State, reqs: seq<Piece>, height: nat): seq<Package> {
    var kept := DropDuplicates(s, reqs);
    Aggregate(kept, if kept == [] then 0 else |kept| - 1, height)
  }

  lemma MergedIs(s: State, reqs: seq<Piece>, height: nat)
    ensures Candidates(Merged(s, reqs, height), height)
    ensures GroupBag(Merged(s, reqs, height)) == GroupBag(DropDuplicates(s, reqs))
    ensures AllUniform(Merged(s, reqs, height)) <==> CreatedTogether(s, reqs, height)
  {
    hide Candidates, GroupBag, AllUniform, Aggregate, DropDuplicates;
    var kept := DropDuplicates(s, reqs);
    var n := if kept == [] then 0 else |kept| - 1;
    KeptCandidates(s, reqs, height);
    AggregateCandidates(kept, n, height);
    AggregateBag(kept, n, height);
    AggregateUniformExactlyWhen(kept, n, height);
    AllPairs(kept, height);
  }

  lemma AllPairs(ps: seq<Package>, height: nat)
    ensures AgedAlike(ps, if ps == [] then 0 else |ps| - 1, height) <==>
              forall p, q :: p in ps && q in ps && CanMergeWith(p, q, height) ==> Created(p) == Created(q)
  {
    hide CanMergeWith, Created;
    if AgedAlike(ps, if ps == [] then 0 else |ps| - 1, height) {
      forall p, q | p in ps && q in ps && CanMergeWith(p, q, height) ensures Created(p) == Created(q) {
        var i :| 0 <= i < |ps| && ps[i] == p;
        var j :| 0 <= j < |ps| && ps[j] == q;
        CanMergeSymmetric(p, q, height);
        assert i < j || i == j || j < i;
      }
    }
  }

  // From new requests: every package handed to `generate_claim` has its locktime reached, every package
  // still timelocked has not, and all of them are well formed and tracked nowhere else.
  lemma NewIsPlaced(s: State, reqs: seq<Piece>, height: nat)
    requires Inv(s) && CanRequest(s, reqs, height)
    ensures
      var (ready, queue) := Preprocess(s, reqs, height);
      && DueBy(ready, height) && FormedGroup(ready)
      && KeysAbove(queue, height) && FormedQueue(queue)
      && NewBag(GroupBag(ready), s.claimable, QueueBag(queue), Contested(s.events))
      && QueueApart(QueueBag(queue), s.claimable, Contested(s.events))
  {
    hide Inv, Preprocess, AllNew, FormedQueue, DueBy, KeysAbove, NewBag, QueueApart, FormedGroup, GroupBag, QueueBag,
      CreatedTogether;
    PreprocessIsSound(s, reqs, height);
  }

  ghost predicate InQueue(q: Queue, p: Package) {
    exists i :: 0 <= i < |q| && p in q[i].1
  }

  lemma {:induction false} EnqueueHas(q: Queue, key: nat, p: Package)
    ensures InQueue(Enqueue(q, key, p), p) && forall x :: InQueue(q, x) ==> InQueue(Enqueue(q, key, p), x)
  {
    var t := Enqueue(q, key, p);
    if q == [] || key < q[0].0 {
      assert p in t[0].1;
      forall x | InQueue(q, x) ensures InQueue(t, x) {
        var i :| 0 <= i < |q| && x in q[i].1;
        assert t[i + 1] == q[i];
      }
    } else if key == q[0].0 {
      assert p in t[0].1;
      forall x | InQueue(q, x) ensures InQueue(t, x) {
        var i :| 0 <= i < |q| && x in q[i].1;
        assert x in t[i].1;
      }
    } else {
      EnqueueHas(q[1..], key, p);
      InRest(q);
      InRest(t);
    }
  }

  lemma InRest(q: Queue)
    requires q != []
    ensures forall x :: InQueue(q, x) <==> x in q[0].1 || InQueue(q[1..], x)
  {
    forall x | InQueue(q[1..], x) ensures InQueue(q, x) {
      var i :| 0 <= i < |q[1..]| && x in q[1..][i].1;
      assert x in q[i + 1].1;
    }
    forall x | InQueue(q, x) ensures x in q[0].1 || InQueue(q[1..], x) {
      var i :| 0 <= i < |q| && x in q[i].1;
      if i > 0 { assert x in q[1..][i - 1].1; }
    }
  }

  lemma NotInEmpty()
    ensures forall p :: !InQueue([], p)
  {
  }

  lemma {:induction false} SplitByLocktimeHas(reqs: seq<Package>, q: Queue, height: nat)
    ensures var (ready, queue) := SplitByLocktime(reqs, q, height);
            && (forall p :: p in reqs ==> p in ready || InQueue(queue, p))
            && (forall p :: InQueue(q, p) ==> InQueue(queue, p))
    decreases reqs
  {
    hide InQueue, PackageLocktime, Enqueue;
    if reqs != [] {
      assert reqs == [reqs[0]] + reqs[1..];
      var locktime := PackageLocktime(reqs[0], height);
      if locktime > height {
        EnqueueHas(q, locktime, reqs[0]);
        SplitByLocktimeHas(reqs[1..], Enqueue(q, locktime, reqs[0]), height);
      } else {
        SplitByLocktimeHas(reqs[1..], q, height);
      }
    }
  }

  lemma {:induction false} PopReadyHas(q: Queue, height: nat)
    ensures var (ready, rest) := PopReady(q, height);
            forall p :: InQueue(q, p) ==> p in ready || InQueue(rest, p)
  {
    hide InQueue;
    if q != [] {
      InRest(q);
      PopReadyHas(q[1..], height);
      var (ready, rest) := PopReady(q[1..], height);
      InRest([q[0]] + rest);
      assert ([q[0]] + rest)[1..] == rest;
    } else {
      NotInEmpty();
    }
  }

  lemma FormedInQueue(q: Queue, p: Package)
    requires FormedQueue(q) && InQueue(q, p)
    ensures WellFormed(p)
  {
    hide WellFormed, LevelGroup;
  }

  // What is handed over and what stays timelocked is well formed exactly when what was aggregated is.
  lemma PlacedFormed(s: State, reqs: seq<Piece>, height: nat)
    requires FormedQueue(s.locktimed)
    ensures
      var (ready, queue) := Preprocess(s, reqs, height);
      FormedGroup(ready) && FormedQueue(queue) <==> FormedGroup(Merged(s, reqs, height))
  {
    hide FormedQueue, WellFormed, SplitByLocktime, PopReady, Candidates, DueBy, InQueue, Aggregate, DropDuplicates;
    var merged := Merged(s, reqs, height);
    var (ready, rest) := Preprocess(s, reqs, height);
    MergedIs(s, reqs, height);
    var (now, queue) := SplitByLocktime(merged, s.locktimed, height);
    if FormedGroup(merged) {
      SplitByLocktimeFormed(merged, s.locktimed, height);
      PopReadyDue(queue, height);
    }
    if FormedGroup(ready) && FormedQueue(rest) {
      SplitByLocktimeHas(merged, s.locktimed, height);
      PopReadyHas(queue, height);
      forall p | p in merged ensures WellFormed(p) {
        if InQueue(rest, p) { FormedInQueue(rest, p); }
      }
    }
  }

  // For any requests: what is claimed and what is queued name distinct outpoints that are tracked
  // nowhere else exactly when all the requests that deduplication lets through are new.
  lemma PlacedExactlyWhen(s: State, reqs: seq<Piece>, height: nat)
    requires Inv(s)
    ensures
      var (ready, queue) := Preprocess(s, reqs, height);
      (NewBag(GroupBag(ready), s.claimable, QueueBag(queue), Contested(s.events))
       && QueueApart(QueueBag(queue), s.claimable, Contested(s.events)))
      <==> AllNew(s, reqs)
  {
    hide Inv, Preprocess, GroupBag, QueueBag, DropDuplicates, NewBag, QueueApart;
    var (ready, queue) := Preprocess(s, reqs, height);
    var kept := GroupBag(DropDuplicates(s, reqs));
    InvQueue(s);
    RegisterConserves(s, reqs, height);
    KeptNotClaimable(s, reqs);
    if AllNew(s, reqs) {
      StillApart(s, kept, GroupBag(ready), QueueBag(queue), reqs);
    }
    if NewBag(GroupBag(ready), s.claimable, QueueBag(queue), Contested(s.events))
       && QueueApart(QueueBag(queue), s.claimable, Contested(s.events)) {
      WereNew(kept, QueueBag(s.locktimed), GroupBag(ready), QueueBag(queue), s.claimable, Contested(s.events));
    }
  }

  // For any requests: every package handed to `generate_claim` has its locktime reached, every package
  // still timelocked has not; and all of them are well formed and tracked nowhere else exactly when
  // all the requests that deduplication lets through are new, and those of them that are merged concern
  // outputs of one creation height.
  lemma PreprocessIsSound(s: State, reqs: seq<Piece>, height: nat)
    requires Inv(s)
    ensures
      var (ready, queue) := Preprocess(s, reqs, height);
      && DueBy(ready, height) && KeysAbove(queue, height)
      && (FormedGroup(ready) && FormedQueue(queue)
          && NewBag(GroupBag(ready), s.claimable, QueueBag(queue), Contested(s.events))
          && QueueApart(QueueBag(queue), s.claimable, Contested(s.events))
          <==> AllNew(s, reqs) && CreatedTogether(s, reqs, height))
  {
    hide Inv, Preprocess, CreatedTogether, AllNew, FormedQueue, DueBy, KeysAbove, NewBag, QueueApart, FormedGroup,
      GroupBag, QueueBag, Merged, AllUniform, Candidates;
    InvQueue(s);
    ReadyIsDue(s, reqs, height);
    PlacedExactlyWhen(s, reqs, height);
    PlacedFormed(s, reqs, height);
    MergedIs(s, reqs, height);
    if AllNew(s, reqs) { MergedFormedGroup(s, reqs, Merged(s, reqs, height), height); }
  }

  lemma WereNew(kept: multiset<OutPoint>, was: multiset<OutPoint>, ready: multiset<OutPoint>,
                queued: multiset<OutPoint>,
                claimable: Links, contested: set<OutPoint>)
    requires ready + queued == kept + was
    requires NewBag(ready, claimable, queued, contested) && QueueApart(queued, claimable, contested)
    ensures NewBag(kept, map[], was, contested)
  {
    forall o | o in kept ensures kept[o] == 1 && o !in was && o !in contested {
      assert (ready + queued)[o] == ready[o] + queued[o] == kept[o] + was[o];
      if o in ready { assert ready[o] == 1 && queued[o] == 0; } else { assert queued[o] == 1; }
    }
  }

  lemma InvQueue(s: State)
    requires Inv(s)
    ensures FormedQueue(s.locktimed) && QueueApart(QueueBag(s.locktimed), s.claimable, Contested(s.events))
  {
  }

  lemma MergedFormedGroup(s: State, reqs: seq<Piece>, merged: seq<Package>, height: nat)
    requires AllNew(s, reqs) && Candidates(merged, height)
    requires GroupBag(merged) == GroupBag(DropDuplicates(s, reqs))
    ensures FormedGroup(merged) <==> AllUniform(merged)
  {
    hide Uniform, GroupBag, Distinct;
    if AllUniform(merged) {
      forall o ensures GroupBag(merged)[o] <= 1 {
        if o in GroupBag(merged) { assert GroupBag(merged)[o] == 1; }
      }
      assert forall p :: p in merged ==> Candidate(p, height);
      DistinctGroup(merged);
    } else {
      var i :| 0 <= i < |merged| && !Uniform(merged[i].inputs);
      assert merged[i] in merged;
    }
  }

  lemma StillApart(s: State, kept: multiset<OutPoint>, ready: multiset<OutPoint>, queued: multiset<OutPoint>,
                   reqs: seq<Piece>)
    requires AllNew(s, reqs) && kept == GroupBag(DropDuplicates(s, reqs))
    requires forall o :: o in kept ==> o !in s.claimable
    requires QueueApart(QueueBag(s.locktimed), s.claimable, Contested(s.events))
    requires ready + queued == kept + QueueBag(s.locktimed)
    ensures NewBag(ready, s.claimable, queued, Contested(s.events))
    ensures QueueApart(queued, s.claimable, Contested(s.events))
  {
    hide GroupBag, QueueBag;
    var was := QueueBag(s.locktimed);
    forall o
      ensures o in ready ==> ready[o] == 1 && o !in s.claimable && o !in queued && o !in Contested(s.events)
      ensures o in queued ==> queued[o] == 1 && o !in s.claimable && o !in Contested(s.events)
    {
      assert (ready + queued)[o] == ready[o] + queued[o];
      assert (kept + was)[o] == kept[o] + was[o];
    }
  }

  // ---- Registering ----

  // The creation heights of a package agree, so its claim gets links of one height.
  lemma {:induction false} LinkIs(m: Links, inputs: Inputs, id: ClaimId, confHeight: nat)
    ensures var t := Link(m, inputs, id, confHeight);
            && t.Keys == m.Keys + Outs(inputs)
            && (forall o :: o in m && o !in Outs(inputs) ==> t[o] == m[o])
            && (forall o :: o in Outs(inputs) ==> t[o].0 == id)
    decreases inputs
  {
    if inputs != [] {
      LinkIs(m[inputs[0].0 := (id, CreationHeight(inputs[0].1, confHeight))], inputs[1..], id, confHeight);
    }
  }

  lemma {:induction false} LinkHeights(m: Links, inputs: Inputs, id: ClaimId, confHeight: nat, height: nat)
    requires forall x :: x in inputs ==> CreationHeight(x.1, confHeight) == height
    ensures forall o :: o in Outs(inputs) ==>
              o in Link(m, inputs, id, confHeight) && Link(m, inputs, id, confHeight)[o].1 == height
    decreases inputs
  {
    if inputs != [] {
      var n := m[inputs[0].0 := (id, CreationHeight(inputs[0].1, confHeight))];
      assert inputs[0] in inputs;
      LinkHeights(n, inputs[1..], id, confHeight, height);
      LinkIs(n, inputs[1..], id, confHeight);
    }
  }

  // The claim id generated for a request is not in use.
  ghost predicate NewId(s: State, req: Package, curHeight: nat, oracle: Oracle) {
    var c := GenerateClaim(s, req, curHeight, oracle);
    c.Some? ==> c.value.id !in s.pending
  }

  ghost predicate NewIds(s: State, reqs: seq<Package>, confHeight: nat, curHeight: nat, oracle: Oracle)
    decreases reqs
  {
    reqs == [] ||
    (NewId(s, reqs[0], curHeight, oracle)
     && NewIds(RegisterOne(s, reqs[0], confHeight, curHeight, oracle), reqs[1..], confHeight, curHeight, oracle))
  }

  ghost predicate NewOuts(outs: set<OutPoint>, s: State) {
    forall o :: o in outs ==> o !in s.claimable && o !in QueueBag(s.locktimed) && o !in Contested(s.events)
  }

  lemma RegisterOneKeepsInv(s: State, req: Package, confHeight: nat, curHeight: nat, oracle: Oracle)
    requires Inv(s) && WellFormed(req) && NewOuts(Outs(req.inputs), s) && NewId(s, req, curHeight, oracle)
    ensures Inv(RegisterOne(s, req, confHeight, curHeight, oracle))
  {
    hide Live, Owned, QueueApart, Matching, Ordered, OneSpend, FormedEvents, FormedQueue, SameHeight, QueueBag,
      Contested, WellFormed, Link;
    match GenerateClaim(s, req, curHeight, oracle)
    case None =>
    case Some(c) =>
      var made := req.(timer := c.timer, feerate := c.feerate);
      MadeFormed(req, made);
      LinkIs(s.claimable, req.inputs, c.id, confHeight);
      LinksOneHeight(s.claimable, req, c.id, confHeight);
      var links := Link(s.claimable, req.inputs, c.id, confHeight);
      RegisteredPlaces(s, made, c.id, links);
      RegisteredRecords(s, made, c.id, links);
  }

  lemma MadeFormed(req: Package, made: Package)
    requires WellFormed(req) && made.inputs == req.inputs
    ensures WellFormed(made)
  {
  }

  lemma LinksOneHeight(m: Links, req: Package, id: ClaimId, confHeight: nat)
    requires WellFormed(req)
    ensures forall o, p :: o in Outs(req.inputs) && p in Outs(req.inputs) ==>
              var t := Link(m, req.inputs, id, confHeight); o in t && p in t && t[o].1 == t[p].1
  {
    var height := CreationHeight(req.inputs[0].1, confHeight);
    assert req.inputs[0] in req.inputs;
    LinkHeights(m, req.inputs, id, confHeight, height);
  }

  // The links gained the outpoints of the claim `made`, all under its id and one height.
  ghost predicate LinkedAs(s: State, made: Package, id: ClaimId, links: Links) {
    && links.Keys == s.claimable.Keys + Outs(made.inputs)
    && (forall o :: o in s.claimable && o !in Outs(made.inputs) ==> links[o] == s.claimable[o])
    && (forall o :: o in Outs(made.inputs) ==> links[o].0 == id)
    && (forall o, p :: o in Outs(made.inputs) && p in Outs(made.inputs) ==> links[o].1 == links[p].1)
  }

  lemma RegisteredPlaces(s: State, made: Package, id: ClaimId, links: Links)
    requires Places(s) && NewOuts(Outs(made.inputs), s) && id !in s.pending && LinkedAs(s, made, id, links)
    ensures Places(s.(claimable := links, pending := s.pending[id := made]))
  {
    hide QueueBag, Contested, Outs;
    RegisteredLive(s.pending, s.claimable, Contested(s.events), made, id, links);
  }

  lemma RegisteredLive(pending: Requests, claimable: Links, contested: set<OutPoint>, made: Package, id: ClaimId,
                       links: Links)
    requires Live(pending, claimable, contested) && Owned(pending, claimable, contested)
    requires id !in pending && forall o :: o in Outs(made.inputs) ==> o !in claimable && o !in contested
    requires links.Keys == claimable.Keys + Outs(made.inputs)
    requires forall o :: o in claimable && o !in Outs(made.inputs) ==> links[o] == claimable[o]
    requires forall o :: o in Outs(made.inputs) ==> links[o].0 == id
    ensures Live(pending[id := made], links, contested) && Owned(pending[id := made], links, contested)
  {
    hide Outs;
  }

  lemma RegisteredRecords(s: State, made: Package, id: ClaimId, links: Links)
    requires Places(s) && Records(s) && NewOuts(Outs(made.inputs), s) && id !in s.pending
    requires LinkedAs(s, made, id, links)
    ensures Records(s.(claimable := links, pending := s.pending[id := made]))
  {
    hide QueueBag, Outs, Owned, SameHeight, QueueApart, Contested;
    forall e | e in s.events && e.event.Contentious? ensures SpentOut(e) !in Outs(made.inputs) {
      NotContested(s.events, e);
    }
  }

  lemma NotContested(events: seq<Entry>, e: Entry)
    requires e in events && e.event.Contentious?
    ensures SpentOut(e) in Contested(events)
  {
    ContestedHas(events, e, -1);
  }

  lemma {:induction false} RegisterAllKeepsInv(s: State, reqs: seq<Package>, confHeight: nat, curHeight: nat,
                                               oracle: Oracle)
    requires Inv(s) && FormedGroup(reqs) && NewIds(s, reqs, confHeight, curHeight, oracle)
    requires NewBag(GroupBag(reqs), s.claimable, QueueBag(s.locktimed), Contested(s.events))
    ensures
      var t := RegisterAll(s, reqs, confHeight, curHeight, oracle);
      Inv(t) && t.locktimed == s.locktimed && t.events == s.events
    decreases reqs
  {
    hide Inv, QueueBag, Contested, WellFormed, RegisterOne, NewId;
    if reqs != [] {
      BagOuts(reqs[0].inputs);
      assert reqs[0] in reqs;
      FirstIsNew(s, reqs);
      RegisterOneKeepsInv(s, reqs[0], confHeight, curHeight, oracle);
      var t := RegisterOne(s, reqs[0], confHeight, curHeight, oracle);
      RegisterOneLinks(s, reqs[0], confHeight, curHeight, oracle);
      RestIsNew(s, t, reqs);
      RegisterAllKeepsInv(t, reqs[1..], confHeight, curHeight, oracle);
    }
  }

  lemma FirstIsNew(s: State, reqs: seq<Package>)
    requires reqs != [] && NewBag(GroupBag(reqs), s.claimable, QueueBag(s.locktimed), Contested(s.events))
    ensures NewOuts(Outs(reqs[0].inputs), s)
  {
    hide QueueBag, Contested;
    BagOuts(reqs[0].inputs);
    forall o | o in Outs(reqs[0].inputs) ensures o in GroupBag(reqs) {
      assert o in Bag(reqs[0].inputs);
    }
  }

  lemma RegisterOneLinks(s: State, req: Package, confHeight: nat, curHeight: nat, oracle: Oracle)
    ensures var t := RegisterOne(s, req, confHeight, curHeight, oracle);
            t.locktimed == s.locktimed && t.events == s.events &&
                t.claimable.Keys <= s.claimable.Keys + Outs(req.inputs)
  {
    match GenerateClaim(s, req, curHeight, oracle)
    case None =>
    case Some(c) => LinkIs(s.claimable, req.inputs, c.id, confHeight);
  }

  lemma RestIsNew(s: State, t: State, reqs: seq<Package>)
    requires reqs != [] && NewBag(GroupBag(reqs), s.claimable, QueueBag(s.locktimed), Contested(s.events))
    requires t.locktimed == s.locktimed && t.events == s.events
    requires t.claimable.Keys <= s.claimable.Keys + Outs(reqs[0].inputs)
    ensures NewBag(GroupBag(reqs[1..]), t.claimable, QueueBag(t.locktimed), Contested(t.events))
  {
    hide QueueBag, ContestedAbove, GroupBag, Bag, Outs;
    BagOuts(reqs[0].inputs);
    GroupBagCons(reqs);
    forall o | o in GroupBag(reqs[1..])
      ensures GroupBag(reqs[1..])[o] == 1 && o !in t.claimable && o !in QueueBag(s.locktimed) &&
          o !in Contested(s.events)
    {
      assert GroupBag(reqs)[o] == Bag(reqs[0].inputs)[o] + GroupBag(reqs[1..])[o];
      assert o in GroupBag(reqs);
      assert o !in Bag(reqs[0].inputs);
    }
  }

  // ---- The whole step ----

  ghost predicate CanRegister(s: State, reqs: seq<Piece>, confHeight: nat, curHeight: nat, oracle: Oracle) {
    && CanRequest(s, reqs, curHeight)
    && var (ready, queue) := Preprocess(s, reqs, curHeight);
    && NewIds(s.(locktimed := queue), ready, confHeight, curHeight, oracle)
  }

  lemma RegisterKeepsConsistent(s: State, reqs: seq<Piece>, confHeight: nat, curHeight: nat, oracle: Oracle)
    requires Consistent(s) && CanRegister(s, reqs, confHeight, curHeight, oracle)
    ensures Consistent(Register(s, reqs, confHeight, curHeight, oracle))
  {
    hide Live, Owned, SameHeight, OneSpend, FormedEvents, Matching, Ordered, QueueApart, FormedQueue, FormedGroup,
      CanRequest, NewIds, NewBag, Preprocess, NoDup, KeysAbove,
      DueBy, FormedRequests;
    NewIsPlaced(s, reqs, curHeight);
    var (ready, queue) := Preprocess(s, reqs, curHeight);
    var t := s.(locktimed := queue);
    assert Inv(t);
    RegisterAllKeepsInv(t, ready, confHeight, curHeight, oracle);
  }

  // ---- Exactly when registering keeps the tracker consistent ----

  // A claim is built for every package.
  ghost predicate AllClaimed(s: State, reqs: seq<Package>, confHeight: nat, curHeight: nat, oracle: Oracle)
    decreases reqs
  {
    reqs == [] ||
    (GenerateClaim(s, reqs[0], curHeight, oracle).Some?
     && AllClaimed(RegisterOne(s, reqs[0], confHeight, curHeight, oracle), reqs[1..], confHeight, curHeight, oracle))
  }

  // Requests that were there stay as they are, the queue and the events too.
  lemma {:induction false} RegisterAllAdds(s: State, reqs: seq<Package>, confHeight: nat, curHeight: nat,
                                           oracle: Oracle)
    requires NewIds(s, reqs, confHeight, curHeight, oracle)
    ensures var t := RegisterAll(s, reqs, confHeight, curHeight, oracle);
            && t.locktimed == s.locktimed && t.events == s.events
            && forall id :: id in s.pending ==> id in t.pending && t.pending[id] == s.pending[id]
    decreases reqs
  {
    hide GenerateClaim, Link;
    if reqs != [] {
      RegisterAllAdds(RegisterOne(s, reqs[0], confHeight, curHeight, oracle), reqs[1..], confHeight, curHeight, oracle);
    }
  }

  // Every outpoint handed over ends up in a request that was not there before.
  lemma {:induction false} HeldAfter(s: State, reqs: seq<Package>, confHeight: nat, curHeight: nat, oracle: Oracle,
                                     o: OutPoint)
    returns (id: ClaimId)
    requires NewIds(s, reqs, confHeight, curHeight, oracle) && AllClaimed(s, reqs, confHeight, curHeight, oracle)
    requires o in GroupBag(reqs)
    ensures var t := RegisterAll(s, reqs, confHeight, curHeight, oracle);
            id !in s.pending && id in t.pending && Holds(t.pending[id], o)
    decreases reqs
  {
    hide GenerateClaim, Link, GroupBag;
    NoGroup();
    var u := RegisterOne(s, reqs[0], confHeight, curHeight, oracle);
    RegisterAllAdds(u, reqs[1..], confHeight, curHeight, oracle);
    GroupBagCons(reqs);
    BagOuts(reqs[0].inputs);
    if o in Bag(reqs[0].inputs) {
      id := GenerateClaim(s, reqs[0], curHeight, oracle).value.id;
    } else {
      id := HeldAfter(u, reqs[1..], confHeight, curHeight, oracle, o);
    }
  }

  lemma GroupBagCons(ps: seq<Package>)
    requires ps != []
    ensures forall o :: GroupBag(ps)[o] == Bag(ps[0].inputs)[o] + GroupBag(ps[1..])[o]
  {
  }

  // An outpoint handed over twice breaks the invariant: it is twice in a request, or in two of them.
  lemma {:induction false} TwiceHeld(s: State, reqs: seq<Package>, confHeight: nat, curHeight: nat, oracle: Oracle,
                                     o: OutPoint)
    requires NewIds(s, reqs, confHeight, curHeight, oracle) && AllClaimed(s, reqs, confHeight, curHeight, oracle)
    requires GroupBag(reqs)[o] >= 2
    ensures var t := RegisterAll(s, reqs, confHeight, curHeight, oracle);
            !(FormedRequests(t.pending) && Owned(t.pending, t.claimable, Contested(t.events)))
    decreases reqs
  {
    hide GenerateClaim, Link, GroupBag, Contested, Owned, FormedRequests;
    if reqs == [] {
      NoGroup();
    } else {
      var u := RegisterOne(s, reqs[0], confHeight, curHeight, oracle);
      var t := RegisterAll(s, reqs, confHeight, curHeight, oracle);
      RegisterAllAdds(u, reqs[1..], confHeight, curHeight, oracle);
      GroupBagCons(reqs);
      BagOuts(reqs[0].inputs);
      var id := GenerateClaim(s, reqs[0], curHeight, oracle).value.id;
      assert t.pending[id].inputs == reqs[0].inputs;
      if Bag(reqs[0].inputs)[o] >= 2 {
        NotFormedTwice(t.pending, id, o);
      } else if GroupBag(reqs[1..])[o] >= 2 {
        TwiceHeld(u, reqs[1..], confHeight, curHeight, oracle, o);
      } else {
        var other := HeldAfter(u, reqs[1..], confHeight, curHeight, oracle, o);
        if Owned(t.pending, t.claimable, Contested(t.events)) { OwnedByOne(t, id, other, o); }
      }
    }
  }

  lemma NoGroup()
    ensures GroupBag([]) == multiset{}
  {
  }

  lemma NotFormedTwice(pending: Requests, id: ClaimId, o: OutPoint)
    requires id in pending && Bag(pending[id].inputs)[o] >= 2
    ensures !FormedRequests(pending)
  {
    assert !Distinct(pending[id].inputs);
  }

  lemma OwnedByOne(t: State, a: ClaimId, b: ClaimId, o: OutPoint)
    requires Owned(t.pending, t.claimable, Contested(t.events))
    requires a in t.pending && b in t.pending && Holds(t.pending[a], o) && Holds(t.pending[b], o)
    ensures a == b
  {
    hide Holds, Contested;
    assert o in t.claimable && t.claimable[o].0 == a;
  }

  // Registering under new ids, with a claim built for each package, keeps the tracker consistent exactly
  // when all that deduplication lets through is new, and what is merged concerns outputs of one
  // creation height.
  lemma RegisterKeepsConsistentExactlyWhen(s: State, reqs: seq<Piece>, confHeight: nat, curHeight: nat, oracle: Oracle)
    requires Consistent(s)
    requires var (ready, queue) := Preprocess(s, reqs, curHeight);
             && NewIds(s.(locktimed := queue), ready, confHeight, curHeight, oracle)
             && AllClaimed(s.(locktimed := queue), ready, confHeight, curHeight, oracle)
    ensures Consistent(Register(s, reqs, confHeight, curHeight, oracle)) <==>
              AllNew(s, reqs) && CreatedTogether(s, reqs, curHeight)
  {
    hide Preprocess, AllNew, NewIds, AllClaimed, CreatedTogether, Inv, FormedGroup, FormedQueue;
    var (ready, queue) := Preprocess(s, reqs, curHeight);
    if AllNew(s, reqs) && CreatedTogether(s, reqs, curHeight) {
      RegisterKeepsConsistent(s, reqs, confHeight, curHeight, oracle);
    } else {
      PreprocessIsSound(s, reqs, curHeight);
      var u := s.(locktimed := queue);
      if FormedGroup(ready) && FormedQueue(queue) {
        HandedNotClaimable(s, reqs, curHeight);
        MisplacedAfter(u, ready, confHeight, curHeight, oracle);
      } else {
        MisformedAfter(u, ready, confHeight, curHeight, oracle);
      }
    }
  }

  lemma MisformedAfter(s: State, ready: seq<Package>, confHeight: nat, curHeight: nat, oracle: Oracle)
    requires NewIds(s, ready, confHeight, curHeight, oracle) && AllClaimed(s, ready, confHeight, curHeight, oracle)
    requires !(FormedGroup(ready) && FormedQueue(s.locktimed))
    ensures !Inv(RegisterAll(s, ready, confHeight, curHeight, oracle))
  {
    hide Places, Records, FormedQueue, NewIds, AllClaimed, RegisterAll, WellFormed;
    RegisterAllAdds(s, ready, confHeight, curHeight, oracle);
    if !FormedGroup(ready) {
      var p :| p in ready && !WellFormed(p);
      var id := PendingAfter(s, ready, confHeight, curHeight, oracle, p);
      MisformedToo(p, RegisterAll(s, ready, confHeight, curHeight, oracle).pending[id]);
    }
  }

  lemma MisformedToo(p: Package, q: Package)
    requires p.inputs == q.inputs
    ensures WellFormed(p) <==> WellFormed(q)
  {
  }

  // Every package handed over ends up as a request.
  lemma {:induction false} PendingAfter(s: State, reqs: seq<Package>, confHeight: nat, curHeight: nat, oracle: Oracle,
                                        p: Package)
    returns (id: ClaimId)
    requires NewIds(s, reqs, confHeight, curHeight, oracle) && AllClaimed(s, reqs, confHeight, curHeight, oracle)
    requires p in reqs
    ensures var t := RegisterAll(s, reqs, confHeight, curHeight, oracle);
            id in t.pending && t.pending[id].inputs == p.inputs
    decreases reqs
  {
    hide GenerateClaim, Link;
    var u := RegisterOne(s, reqs[0], confHeight, curHeight, oracle);
    RegisterAllAdds(u, reqs[1..], confHeight, curHeight, oracle);
    if p == reqs[0] {
      id := GenerateClaim(s, reqs[0], curHeight, oracle).value.id;
    } else {
      assert p in reqs[1..];
      id := PendingAfter(u, reqs[1..], confHeight, curHeight, oracle, p);
    }
  }

  lemma HandedNotClaimable(s: State, reqs: seq<Piece>, height: nat)
    requires Inv(s)
    ensures var (ready, queue) := Preprocess(s, reqs, height);
            forall o :: o in GroupBag(ready) || o in QueueBag(queue) ==> o !in s.claimable
  {
    hide Inv, Preprocess, GroupBag, QueueBag, DropDuplicates;
    var (ready, queue) := Preprocess(s, reqs, height);
    var kept := GroupBag(DropDuplicates(s, reqs));
    InvQueue(s);
    RegisterConserves(s, reqs, height);
    KeptNotClaimable(s, reqs);
    forall o | o in GroupBag(ready) || o in QueueBag(queue) ensures o !in s.claimable {
      assert (GroupBag(ready) + QueueBag(queue))[o] == (kept + QueueBag(s.locktimed))[o];
      assert o in kept || o in QueueBag(s.locktimed);
    }
  }

  lemma MisplacedAfter(s: State, ready: seq<Package>, confHeight: nat, curHeight: nat, oracle: Oracle)
    requires NewIds(s, ready, confHeight, curHeight, oracle) && AllClaimed(s, ready, confHeight, curHeight, oracle)
    requires forall o :: o in GroupBag(ready) || o in QueueBag(s.locktimed) ==> o !in s.claimable
    requires !(NewBag(GroupBag(ready), s.claimable, QueueBag(s.locktimed), Contested(s.events))
               && QueueApart(QueueBag(s.locktimed), s.claimable, Contested(s.events)))
    ensures !Inv(RegisterAll(s, ready, confHeight, curHeight, oracle))
  {
    hide GroupBag, QueueBag, Contested, Live, Records, FormedQueue, NewIds, AllClaimed, RegisterAll, FormedRequests,
      Holds;
    var t := RegisterAll(s, ready, confHeight, curHeight, oracle);
    RegisterAllAdds(s, ready, confHeight, curHeight, oracle);
    if !NewBag(GroupBag(ready), s.claimable, QueueBag(s.locktimed), Contested(s.events)) {
      var o :| o in GroupBag(ready) && !(GroupBag(ready)[o] == 1 && o !in QueueBag(s.locktimed) &&
          o !in Contested(s.events));
      if GroupBag(ready)[o] >= 2 {
        TwiceHeld(s, ready, confHeight, curHeight, oracle, o);
      } else {
        var id := HeldAfter(s, ready, confHeight, curHeight, oracle, o);
        MisplacedOne(t, id, o);
      }
    }
  }

  lemma MisplacedOne(t: State, id: ClaimId, o: OutPoint)
    requires id in t.pending && Holds(t.pending[id], o)
    requires o in QueueBag(t.locktimed) || o in Contested(t.events)
    ensures !Inv(t)
  {
    hide GroupBag, QueueBag, Contested, Live, Records, FormedQueue, FormedRequests, Holds;
  }

  // After registering at `curHeight`, what stays timelocked asks for more than that height, and
  // requests ask for no more if they did not before. This is what undoing later blocks relies on.
  lemma RegisterPreparesReorg(s: State, reqs: seq<Piece>, confHeight: nat, curHeight: nat, oracle: Oracle)
    requires Consistent(s)
    ensures
      var t := Register(s, reqs, confHeight, curHeight, oracle);
      && HighQueue(t.locktimed, curHeight)
      && t.events == s.events
      && (EventsUpTo(s.events, curHeight) && Ripe(s, curHeight, curHeight) ==> Ripe(t, curHeight, curHeight))
  {
    hide Inv, DropDuplicates, Aggregate, SplitByLocktime, PopReady, RegisterAll, LevelQueue, DueBy, Candidates,
      FormedQueue;
    var kept := DropDuplicates(s, reqs);
    var n := if kept == [] then 0 else |kept| - 1;
    var merged := Aggregate(kept, n, curHeight);
    KeptCandidates(s, reqs, curHeight);
    AggregateCandidates(kept, n, curHeight);
    InvQueue(s);
    FormedIsLevel(s.locktimed);
    SplitLevel(merged, s.locktimed, curHeight);
    PopLevel(SplitByLocktime(merged, s.locktimed, curHeight).1, curHeight);
    ReadyIsDue(s, reqs, curHeight);
    var (ready, queue) := Preprocess(s, reqs, curHeight);
    KeysMakeHigh(queue, curHeight);
    RegisterAllKeeps(s.(locktimed := queue), ready, confHeight, curHeight, oracle);
    var t := Register(s, reqs, confHeight, curHeight, oracle);
    if EventsUpTo(s.events, curHeight) && Ripe(s, curHeight, curHeight) {
      RegisterAllRipe(s.(locktimed := queue), ready, confHeight, curHeight, oracle);
      NoneAbove(t, curHeight);
    }
  }

  lemma NoneAbove(t: State, height: nat)
    requires EventsUpTo(t.events, height)
    requires forall id :: id in t.pending ==> PackageLocktime(t.pending[id], 0) <= height
    ensures Ripe(t, height, height)
  {
  }

  lemma {:induction false} RegisterAllKeeps(s: State, reqs: seq<Package>, confHeight: nat, curHeight: nat,
                                            oracle: Oracle)
    ensures var t := RegisterAll(s, reqs, confHeight, curHeight, oracle);
            t.locktimed == s.locktimed && t.events == s.events
    decreases reqs
  {
    hide GenerateClaim, Link;
    if reqs != [] {
      RegisterAllKeeps(RegisterOne(s, reqs[0], confHeight, curHeight, oracle), reqs[1..], confHeight, curHeight,
          oracle);
    }
  }

  // Every package is filed under the locktime its inputs ask for.
  ghost predicate LevelQueue(q: Queue) {
    forall i :: 0 <= i < |q| ==> LevelGroup(q[i].1, q[i].0)
  }

  lemma FormedIsLevel(q: Queue)
    requires FormedQueue(q)
    ensures LevelQueue(q)
  {
  }

  lemma {:induction false} EnqueueLevel(q: Queue, key: nat, p: Package)
    requires LevelQueue(q) && LevelInputs(p.inputs, key)
    ensures LevelQueue(Enqueue(q, key, p))
  {
    hide LevelInputs;
    if q != [] && key > q[0].0 {
      EnqueueLevel(q[1..], key, p);
      assert Enqueue(q, key, p)[1..] == Enqueue(q[1..], key, p);
    }
  }

  lemma {:induction false} SplitLevel(reqs: seq<Package>, q: Queue, height: nat)
    requires LevelQueue(q) && Candidates(reqs, height)
    ensures LevelQueue(SplitByLocktime(reqs, q, height).1)
    decreases reqs
  {
    hide LevelQueue, Even, PackageLocktime, LevelInputs, Agreed;
    if reqs != [] {
      var p := reqs[0];
      assert p in reqs && Candidate(p, height);
      assert Candidates(reqs[1..], height);
      var locktime := PackageLocktime(p, height);
      if locktime > height {
        EvenIsLevel(p, height);
        EnqueueLevel(q, locktime, p);
        SplitLevel(reqs[1..], Enqueue(q, locktime, p), height);
      } else {
        SplitLevel(reqs[1..], q, height);
      }
    }
  }

  lemma {:induction false} PopLevel(q: Queue, height: nat)
    requires LevelQueue(q)
    ensures LevelQueue(PopReady(q, height).1)
  {
    hide LevelGroup;
    if q != [] {
      PopLevel(q[1..], height);
    }
  }

  lemma KeysMakeHigh(q: Queue, height: nat)
    requires LevelQueue(q) && KeysAbove(q, height)
    ensures HighQueue(q, height)
  {
    forall i | 0 <= i < |q| ensures HighGroup(q[i].1, height) {
      assert LevelGroup(q[i].1, q[i].0);
    }
  }

  lemma {:induction false} RegisterAllRipe(s: State, reqs: seq<Package>, confHeight: nat, curHeight: nat,
                                           oracle: Oracle)
    requires DueBy(reqs, curHeight)
    requires forall id :: id in s.pending ==> PackageLocktime(s.pending[id], 0) <= curHeight
    ensures
      var t := RegisterAll(s, reqs, confHeight, curHeight, oracle);
      && t.locktimed == s.locktimed && t.events == s.events
      && forall id :: id in t.pending ==> PackageLocktime(t.pending[id], 0) <= curHeight
    decreases reqs
  {
    hide GenerateClaim, Link;
    if reqs != [] {
      assert reqs[0] in reqs;
      RegisterAllRipe(RegisterOne(s, reqs[0], confHeight, curHeight, oracle), reqs[1..], confHeight, curHeight, oracle);
    }
  }
}
