// Claim packages: the part of chain/package.rs that the claim tracker relies on.
module Packages {
  import opened Common

  datatype OutPoint = OutPoint(txid: nat, vout: nat)

  // The commitment transaction an input can descend from.
  datatype TxTree = Revoked | Counterparty | Holder

  // What the tracker reads of an input's solving data.
  datatype Solving = Solving(tree: TxTree,
                             minimumLocktime: Option<nat>,
                             signedLocktime: Option<nat>,
                             confirmationHeight: Option<nat>)

  datatype Malleability = Untractable | Malleable(pinnable: bool)

  type Inputs = seq<(OutPoint, Solving)>

  datatype Package = Package(inputs: Inputs,
                             malleability: Malleability,
                             spendableHeight: nat,
                             feerate: nat,
                             timer: nat)

  // A package with a single input: what splitting produces, and what callers may submit.
  type Piece = p: Package | |p.inputs| == 1
    witness Package([(OutPoint(0, 0), Solving(Revoked, None, None, None))], Untractable, 0, 0, 0)

  const PINNABLE_WITHIN_BLOCKS: nat := 12

  // ---- Outpoints ----

  function Outpoints(inputs: Inputs): (os: seq<OutPoint>)
    ensures |os| == |inputs|
    ensures forall i :: 0 <= i < |inputs| ==> os[i] == inputs[i].0
  {
    seq(|inputs|, i requires 0 <= i < |inputs| => inputs[i].0)
  }

  function Outs(inputs: Inputs): set<OutPoint> {
    if inputs == [] then {} else {inputs[0].0} + Outs(inputs[1..])
  }

  predicate Holds(p: Package, o: OutPoint) {
    o in Outs(p.inputs)
  }

  // How often each outpoint occurs among the inputs.
  ghost function Bag(inputs: Inputs): multiset<OutPoint> {
    multiset(Outpoints(inputs))
  }

  lemma {:induction false} OutsAreIndices(inputs: Inputs)
    ensures Outs(inputs) == set i | 0 <= i < |inputs| :: inputs[i].0
  {
    if inputs != [] {
      OutsAreIndices(inputs[1..]);
      assert inputs == [inputs[0]] + inputs[1..];
    }
  }

  lemma {:induction false} OutsConcat(a: Inputs, b: Inputs)
    ensures Outs(a + b) == Outs(a) + Outs(b)
  {
    if a == [] {
      assert a + b == b;
    } else {
      assert (a + b)[0] == a[0] && (a + b)[1..] == a[1..] + b;
      OutsConcat(a[1..], b);
    }
  }

  lemma {:induction false} BagOuts(inputs: Inputs)
    ensures forall o :: o in Bag(inputs) <==> o in Outs(inputs)
  {
    if inputs == [] {
      assert Bag(inputs) == multiset{};
    } else {
      BagCons(inputs);
      BagOuts(inputs[1..]);
    }
  }

  lemma BagConcat(a: Inputs, b: Inputs)
    ensures Bag(a + b) == Bag(a) + Bag(b)
  {
    assert Outpoints(a + b) == Outpoints(a) + Outpoints(b);
  }

  lemma BagCons(a: Inputs)
    requires a != []
    ensures Bag(a) == multiset{a[0].0} + Bag(a[1..])
  {
    assert Outpoints(a) == [a[0].0] + Outpoints(a[1..]);
  }

  // ---- Locktimes ----

  // The signed locktime of the first input that has one.
  function SignedLocktime(inputs: Inputs): Option<nat> {
    if inputs == [] then None
    else if inputs[0].1.signedLocktime.Some? then inputs[0].1.signedLocktime
    else SignedLocktime(inputs[1..])
  }

  // The greatest minimum locktime, zero when no input has one.
  function GreatestMinimum(inputs: Inputs): nat {
    if inputs == [] then 0
    else
      var rest := GreatestMinimum(inputs[1..]);
      match inputs[0].1.minimumLocktime
      case None => rest
      case Some(l) => Max(l, rest)
  }

  function PackageLocktime(p: Package, currentHeight: nat): nat {
    match SignedLocktime(p.inputs)
    case Some(l) => l
    case None => Max(currentHeight, GreatestMinimum(p.inputs))
  }

  // The locktime one input asks for.
  function InputLocktime(d: Solving): nat {
    match d.signedLocktime
    case Some(l) => l
    case None => match d.minimumLocktime
      case Some(l) => l
      case None => 0
  }

  lemma PieceLocktime(p: Piece, height: nat)
    ensures PackageLocktime(p, 0) == InputLocktime(p.inputs[0].1)
    ensures p.inputs[0].1.signedLocktime.None? ==>
              PackageLocktime(p, height) == Max(height, InputLocktime(p.inputs[0].1))
  {
    assert p.inputs[1..] == [];
    assert SignedLocktime([]) == None && GreatestMinimum([]) == 0;
  }

  // ---- Splitting and merging ----

  predicate IsPinnable(p: Package, height: nat)
    requires p.malleability.Malleable?
  {
    p.malleability.pinnable || p.spendableHeight <= height + PINNABLE_WITHIN_BLOCKS
  }

  predicate CanMergeWith(p: Package, q: Package, height: nat) {
    && p.malleability.Malleable?
    && q.malleability.Malleable?
    && p.inputs != []
    && q.inputs != []
    && p.inputs[0].1.tree == q.inputs[0].1.tree
    && SignedLocktime(p.inputs) == SignedLocktime(q.inputs)
    && PackageLocktime(p, height) == PackageLocktime(q, height)
    && IsPinnable(p, height) == IsPinnable(q, height)
  }

  // `merge_package`: `None` stands for the rejection.
  function Merge(p: Package, q: Package, height: nat): Option<Package> {
    if CanMergeWith(p, q, height) then
      Some(Package(p.inputs + q.inputs, p.malleability,
                   Min(p.spendableHeight, q.spendableHeight),
                   Min(p.feerate, q.feerate),
                   Min(p.timer, q.timer)))
    else None
  }

  // Two packages as one: all inputs, and the lower of each bound.
  function Joined(p: Package, q: Package): Package {
    Package(p.inputs + q.inputs, p.malleability, Min(p.spendableHeight, q.spendableHeight),
            Min(p.feerate, q.feerate), Min(p.timer, q.timer))
  }

  function JoinedAll(p: Package, more: seq<Package>): Package
    decreases more
  {
    if more == [] then p else JoinedAll(Joined(p, more[0]), more[1..])
  }

  function Without(inputs: Inputs, o: OutPoint): Inputs {
    if inputs == [] then []
    else if inputs[0].0 == o then Without(inputs[1..], o)
    else [inputs[0]] + Without(inputs[1..], o)
  }

  // The solving data of the last input that spends `o`.
  function FindLast(inputs: Inputs, o: OutPoint): Option<Solving> {
    if inputs == [] then None
    else
      var rest := FindLast(inputs[1..], o);
      if rest.Some? then rest
      else if inputs[0].0 == o then Some(inputs[0].1)
      else None
  }

  // What `split_package` takes out of `p`, if anything.
  function SplitPiece(p: Package, o: OutPoint): Option<Piece> {
    if p.malleability.Untractable? then None
    else match FindLast(p.inputs, o)
      case None => None
      case Some(d) => Some(p.(inputs := [(o, d)]))
  }

  // What `split_package` leaves in `p`.
  function SplitRest(p: Package, o: OutPoint): Package {
    if p.malleability.Untractable? then p else p.(inputs := Without(p.inputs, o))
  }

  // ---- Facts about splitting ----

  lemma {:induction false} FindLastIs(inputs: Inputs, o: OutPoint)
    ensures FindLast(inputs, o).Some? <==> o in Outs(inputs)
    ensures FindLast(inputs, o).Some? ==> (o, FindLast(inputs, o).value) in inputs
  {
    if inputs != [] {
      FindLastIs(inputs[1..], o);
    }
  }

  lemma {:induction false} WithoutOuts(inputs: Inputs, o: OutPoint)
    ensures Outs(Without(inputs, o)) == Outs(inputs) - {o}
  {
    if inputs != [] {
      WithoutOuts(inputs[1..], o);
      if inputs[0].0 != o {
        assert Without(inputs, o)[1..] == Without(inputs[1..], o);
      }
    }
  }

  lemma {:induction false} WithoutNothing(inputs: Inputs, o: OutPoint)
    requires o !in Outs(inputs)
    ensures Without(inputs, o) == inputs
  {
    if inputs != [] {
      WithoutNothing(inputs[1..], o);
    }
  }

  lemma {:induction false} WithoutBag(inputs: Inputs, o: OutPoint)
    ensures Bag(Without(inputs, o)) == Bag(inputs)[o := 0]
  {
    if inputs == [] {
      assert Bag(inputs) == multiset{};
    } else {
      WithoutBag(inputs[1..], o);
      BagCons(inputs);
      if inputs[0].0 != o {
        var w := Without(inputs, o);
        assert w[1..] == Without(inputs[1..], o);
        BagCons(w);
      }
    }
  }

  lemma {:induction false} WithoutMembers(inputs: Inputs, o: OutPoint)
    ensures forall x :: x in Without(inputs, o) <==> x in inputs && x.0 != o
  {
    if inputs != [] {
      WithoutMembers(inputs[1..], o);
      assert inputs == [inputs[0]] + inputs[1..];
    }
  }

  // ---- Well-formed packages ----

  // All inputs agree on their transaction tree and signed locktime. A package built from one input
  // does, and merging and splitting keep it so.
  ghost predicate Agreed(inputs: Inputs) {
    forall x, y :: x in inputs && y in inputs ==>
      x.1.tree == y.1.tree && x.1.signedLocktime == y.1.signedLocktime
  }

  // They also agree on their creation height.
  ghost predicate Uniform(inputs: Inputs) {
    Agreed(inputs) &&
    forall x, y :: x in inputs && y in inputs ==> x.1.confirmationHeight == y.1.confirmationHeight
  }

  // No outpoint is spent by two inputs.
  ghost predicate Distinct(inputs: Inputs) {
    forall o :: Bag(inputs)[o] <= 1
  }

  ghost predicate WellFormed(p: Package) {
    p.inputs != [] && Uniform(p.inputs) && Distinct(p.inputs)
  }

  // What the parts of one request share.
  datatype Kind = Kind(malleability: Malleability, spendableHeight: nat,
                       tree: TxTree, signed: Option<nat>, created: Option<nat>)

  function KindOf(p: Package): Kind {
    if p.inputs == [] then Kind(p.malleability, p.spendableHeight, Revoked, None, None)
    else
      var d := p.inputs[0].1;
      Kind(p.malleability, p.spendableHeight, d.tree, d.signedLocktime, d.confirmationHeight)
  }

  lemma {:induction false} SignedOfAgreed(inputs: Inputs)
    requires Agreed(inputs) && inputs != []
    ensures SignedLocktime(inputs) == inputs[0].1.signedLocktime
  {
    if inputs[0].1.signedLocktime.None? && |inputs| > 1 {
      assert inputs[0] in inputs && inputs[1] in inputs;
      assert Agreed(inputs[1..]) by {
        assert forall z :: z in inputs[1..] ==> z in inputs;
      }
      SignedOfAgreed(inputs[1..]);
    }
  }

  lemma {:induction false} SignedConcat(a: Inputs, b: Inputs)
    ensures SignedLocktime(a + b) == if SignedLocktime(a).Some? then SignedLocktime(a) else SignedLocktime(b)
  {
    if a == [] {
      assert a + b == b;
    } else {
      assert (a + b)[0] == a[0] && (a + b)[1..] == a[1..] + b;
      SignedConcat(a[1..], b);
    }
  }

  lemma {:induction false} GreatestMinimumConcat(a: Inputs, b: Inputs)
    ensures GreatestMinimum(a + b) == Max(GreatestMinimum(a), GreatestMinimum(b))
  {
    if a == [] {
      assert a + b == b;
    } else {
      assert (a + b)[0] == a[0] && (a + b)[1..] == a[1..] + b;
      GreatestMinimumConcat(a[1..], b);
    }
  }

  lemma {:induction false} GreatestMinimumWithout(a: Inputs, o: OutPoint)
    ensures GreatestMinimum(Without(a, o)) <= GreatestMinimum(a)
  {
    if a != [] {
      GreatestMinimumWithout(a[1..], o);
      if a[0].0 != o {
        assert Without(a, o)[1..] == Without(a[1..], o);
      }
    }
  }

  // The merge guard does not depend on which package is asked.
  lemma CanMergeSymmetric(p: Package, q: Package, height: nat)
    ensures CanMergeWith(p, q, height) <==> CanMergeWith(q, p, height)
  {
  }

  lemma CanMergeTransitive(p: Package, q: Package, r: Package, height: nat)
    requires CanMergeWith(p, q, height) && CanMergeWith(q, r, height)
    ensures CanMergeWith(p, r, height)
  {
  }

  // What is merged into a package does not change what else can be.
  lemma MergedMergesAlike(p: Package, q: Package, x: Package, height: nat)
    requires CanMergeWith(p, q, height)
    ensures CanMergeWith(Merge(p, q, height).value, x, height) <==> CanMergeWith(p, x, height)
  {
    SignedConcat(p.inputs, q.inputs);
    GreatestMinimumConcat(p.inputs, q.inputs);
  }

  lemma {:induction false} JoinedConcat(p: Package, a: seq<Package>, b: seq<Package>)
    ensures JoinedAll(JoinedAll(p, a), b) == JoinedAll(p, a + b)
    decreases a
  {
    if a == [] {
      assert [] + b == b;
    } else {
      assert (a + b)[0] == a[0] && (a + b)[1..] == a[1..] + b;
      JoinedConcat(Joined(p, a[0]), a[1..], b);
    }
  }

  // Merging keeps apart what can be pinned: a merged package is pinnable exactly when both parts are,
  // flagged so or spendable by others within twelve blocks.
  lemma MergedPinnable(p: Package, q: Package, height: nat)
    requires Merge(p, q, height).Some?
    ensures
      var m := Merge(p, q, height).value;
      var pinnable := (x: Package) =>
        x.malleability.Malleable? && (x.malleability.pinnable || x.spendableHeight <= height + 12);
      pinnable(m) == pinnable(p) == pinnable(q)
  {
  }

  // Splitting takes exactly the outpoint `o` out of a well-formed malleable package that holds it.
  lemma SplitTakesOne(p: Package, o: OutPoint)
    requires WellFormed(p)
    ensures SplitPiece(p, o).Some? <==> p.malleability.Malleable? && Holds(p, o)
    ensures SplitPiece(p, o).Some? ==>
              var piece := SplitPiece(p, o).value;
              && piece.inputs[0].0 == o && piece.inputs[0] in p.inputs
              && WellFormed(piece) && KindOf(piece) == KindOf(p)
  {
    FindLastIs(p.inputs, o);
    if SplitPiece(p, o).Some? {
      var piece := SplitPiece(p, o).value;
      assert Outpoints(piece.inputs) == [o];
      assert p.inputs[0] in p.inputs;
    }
  }

  // What stays behind is everything else, of the same kind.
  lemma SplitLeavesRest(p: Package, o: OutPoint)
    requires WellFormed(p)
    ensures SplitPiece(p, o).None? ==> SplitRest(p, o) == p
    ensures SplitPiece(p, o).Some? ==> Outs(SplitRest(p, o).inputs) == Outs(p.inputs) - {o}
    ensures forall x :: x in SplitRest(p, o).inputs ==> x in p.inputs
  {
    if p.malleability.Malleable? {
      FindLastIs(p.inputs, o);
      WithoutMembers(p.inputs, o);
      if o in Outs(p.inputs) {
        WithoutOuts(p.inputs, o);
      } else {
        WithoutNothing(p.inputs, o);
      }
    }
  }

  lemma SplitRestFormed(p: Package, o: OutPoint)
    requires WellFormed(p) && SplitRest(p, o).inputs != []
    ensures WellFormed(SplitRest(p, o)) && KindOf(SplitRest(p, o)) == KindOf(p)
  {
    if p.malleability.Malleable? {
      WithoutMembers(p.inputs, o);
      WithoutBag(p.inputs, o);
      assert p.inputs[0] in p.inputs;
      assert SplitRest(p, o).inputs[0] in SplitRest(p, o).inputs;
    }
  }

  // Merging is the inverse of splitting: putting the piece back restores the outpoints.
  lemma SplitThenMerge(p: Package, o: OutPoint, height: nat)
    requires WellFormed(p) && SplitPiece(p, o).Some? && SplitRest(p, o).inputs != []
    requires CanMergeWith(SplitRest(p, o), SplitPiece(p, o).value, height)
    ensures
      var back := Merge(SplitRest(p, o), SplitPiece(p, o).value, height);
      && back.Some? && Outs(back.value.inputs) == Outs(p.inputs) && KindOf(back.value) == KindOf(p)
  {
    SplitTakesOne(p, o);
    SplitLeavesRest(p, o);
    SplitRestFormed(p, o);
    OutsConcat(SplitRest(p, o).inputs, SplitPiece(p, o).value.inputs);
  }

  // Two well-formed malleable packages of one kind merge exactly when their locktimes agree.
  lemma MergeOfKind(p: Package, q: Package, height: nat)
    requires WellFormed(p) && WellFormed(q) && KindOf(p) == KindOf(q) && p.malleability.Malleable?
    ensures Merge(p, q, height).Some? <==> PackageLocktime(p, height) == PackageLocktime(q, height)
  {
    SignedOfAgreed(p.inputs);
    SignedOfAgreed(q.inputs);
  }

  // ---- Locktimes of parts ----

  lemma {:induction false} MinimumOfMember(inputs: Inputs, x: (OutPoint, Solving))
    requires x in inputs
    ensures match x.1.minimumLocktime case None => true case Some(l) => l <= GreatestMinimum(inputs)
  {
    if x != inputs[0] {
      MinimumOfMember(inputs[1..], x);
    }
  }

  // No input asks for more than its package does, and splitting asks for no more than before.
  lemma InputWithinPackage(p: Package, x: (OutPoint, Solving))
    requires WellFormed(p) && x in p.inputs
    ensures InputLocktime(x.1) <= PackageLocktime(p, 0)
  {
    SignedOfAgreed(p.inputs);
    MinimumOfMember(p.inputs, x);
    assert p.inputs[0] in p.inputs;
  }

  // A package with a signed locktime asks for that; any other one for the current height or the latest
  // locktime one of its inputs asks for, whichever is later.
  lemma LocktimeIs(p: Package, height: nat, x: (OutPoint, Solving))
    requires WellFormed(p) && x in p.inputs
    ensures x.1.signedLocktime.Some? ==> PackageLocktime(p, height) == x.1.signedLocktime.value
    ensures x.1.signedLocktime.None? ==> PackageLocktime(p, height) >= Max(height, InputLocktime(x.1))
    ensures x.1.signedLocktime.None? && PackageLocktime(p, height) > height ==>
              exists y :: y in p.inputs && InputLocktime(y.1) == PackageLocktime(p, height)
  {
    SignedOfAgreed(p.inputs);
    MinimumOfMember(p.inputs, x);
    assert p.inputs[0] in p.inputs;
    if x.1.signedLocktime.None? && PackageLocktime(p, height) > height {
      var y := MinimumIsAsked(p.inputs);
      assert y.1.signedLocktime == x.1.signedLocktime;
    }
  }

  lemma {:induction false} MinimumIsAsked(inputs: Inputs) returns (y: (OutPoint, Solving))
    requires GreatestMinimum(inputs) > 0
    ensures y in inputs && y.1.minimumLocktime == Some(GreatestMinimum(inputs))
  {
    if inputs[0].1.minimumLocktime == Some(GreatestMinimum(inputs)) {
      y := inputs[0];
    } else {
      y := MinimumIsAsked(inputs[1..]);
    }
  }

  lemma RestWithinPackage(p: Package, o: OutPoint)
    requires WellFormed(p) && SplitRest(p, o).inputs != []
    ensures PackageLocktime(SplitRest(p, o), 0) <= PackageLocktime(p, 0)
  {
    SplitRestFormed(p, o);
    SignedOfAgreed(p.inputs);
    SignedOfAgreed(SplitRest(p, o).inputs);
    GreatestMinimumWithout(p.inputs, o);
  }
}
