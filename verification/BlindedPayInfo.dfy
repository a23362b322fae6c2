// The limits a blinded path advertises: `compute_payinfo` folds every hop's limits, from the first
// hop on, into one minimum and one maximum for the amount delivered.
module BlindedPayInfo {
  import opened Common
  import opened BlindedFees

  // Total bitcoin supply.
  const SUPPLY_MSAT: nat := 21_000_000 * 100_000_000 * 1_000

  datatype Node = Node(relay: Relay, unknownFeatures: bool, htlcMin: U64Value, htlcMax: U64Value)

  datatype Outcome<+T> = Refused | Panicked | Done(value: T)

  datatype Limits = Limits(cltv: nat, min: nat, max: nat)

  datatype PayInfo = PayInfo(fees: Fees, limits: Limits)

  // The amount after one more hop, or 1 if its base fee alone uses it up.
  function MinAfter(n: Node, min: nat): Outcome<nat> {
    match AmtToForward(n.relay, Max(n.htlcMin, min))
    case BelowBase => Done(1)
    case Underflows => Panicked
    case Forward(f) => Done(f)
  }

  function MaxAfter(n: Node, max: nat): Outcome<nat> {
    match AmtToForward(n.relay, Min(n.htlcMax, max))
    case BelowBase => Refused
    case Underflows => Panicked
    case Forward(f) => Done(f)
  }

  function Through(n: Node, l: Limits): Outcome<Limits> {
    if n.unknownFeatures || l.cltv + n.relay.cltvDelta >= U16 then Refused
    else match MinAfter(n, l.min)
      case Refused => Refused
      case Panicked => Panicked
      case Done(min) =>
        match MaxAfter(n, l.max)
        case Refused => Refused
        case Panicked => Panicked
        case Done(max) => Done(Limits(l.cltv + n.relay.cltvDelta, min, max))
  }

  function ThroughAll(nodes: seq<Node>, l: Limits): Outcome<Limits>
    decreases nodes
  {
    if nodes == [] then Done(l)
    else match Through(nodes[0], l)
      case Done(m) => ThroughAll(nodes[1..], m)
      case other => other
  }

  function Relays(nodes: seq<Node>): (path: seq<Relay>)
    ensures |path| == |nodes|
    ensures forall i :: 0 <= i < |nodes| ==> path[i] == nodes[i].relay
  {
    seq(|nodes|, i requires 0 <= i < |nodes| => nodes[i].relay)
  }

  // The limits narrowed by the payee's own, if they leave anything and the fees fit 32 bits.
  function Narrowed(fees: Fees, l: Limits, payeeMin: nat, payeeMax: nat): Outcome<PayInfo> {
    var min, max := Max(payeeMin, l.min), Min(payeeMax, l.max);
    if max < min || fees.base >= U32 || fees.prop >= U32 then Refused
    else Done(PayInfo(fees, Limits(l.cltv, min, max)))
  }

  function PayInfoFor(nodes: seq<Node>, payeeMin: nat, payeeMax: nat, finalCltv: nat): Outcome<PayInfo> {
    match PathFees(Relays(nodes))
    case None => Refused
    case Some(fees) =>
      match ThroughAll(nodes, Limits(finalCltv, 1, SUPPLY_MSAT))
      case Refused => Refused
      case Panicked => Panicked
      case Done(l) => Narrowed(fees, l, payeeMin, payeeMax)
  }

  method ComputePayinfo(nodes: seq<Node>, payeeMin: U64Value, payeeMax: U64Value, finalCltv: U16Value)
    returns (r: Outcome<PayInfo>)
    ensures r == PayInfoFor(nodes, payeeMin, payeeMax, finalCltv)
  {
    hide MinAfter, MaxAfter, PathFees;
    var fees := ComputeAggregatedBasePropFee(Relays(nodes));
    if fees.None? { return Refused; }
    var min: nat, max: nat, cltv: nat := 1, SUPPLY_MSAT, finalCltv;
    var i := 0;
    assert nodes[0..] == nodes;
    while i < |nodes|
      invariant i <= |nodes|
      invariant ThroughAll(nodes[i..], Limits(cltv, min, max)) == ThroughAll(nodes, Limits(finalCltv, 1, SUPPLY_MSAT))
    {
      assert nodes[i..][0] == nodes[i] && nodes[i..][1..] == nodes[i + 1..];
      if nodes[i].unknownFeatures { return Refused; }
      if cltv + nodes[i].relay.cltvDelta >= U16 { return Refused; }
      cltv := cltv + nodes[i].relay.cltvDelta;
      match MinAfter(nodes[i], min) {
        case Refused => return Refused;
        case Panicked => return Panicked;
        case Done(m) => min := m;
      }
      match MaxAfter(nodes[i], max) {
        case Refused => return Refused;
        case Panicked => return Panicked;
        case Done(m) => max := m;
      }
      i := i + 1;
    }
    min := Max(payeeMin, min);
    max := Min(payeeMax, max);
    if max < min { return Refused; }
    if fees.value.base >= U32 || fees.value.prop >= U32 { return Refused; }
    return Done(PayInfo(fees.value, Limits(cltv, min, max)));
  }

  // ---- What the limits mean ----

  // What reaches hop `i` when `amount` is delivered and every later hop keeps its exact fee.
  function Reaching(nodes: seq<Node>, i: nat, amount: nat): nat
    requires i <= |nodes|
  {
    PathIncoming(Relays(nodes[i..]), amount)
  }

  ghost predicate UnderMaxima(nodes: seq<Node>, amount: nat) {
    forall i :: 0 <= i < |nodes| ==> Reaching(nodes, i, amount) <= nodes[i].htlcMax
  }

  ghost predicate OverMinima(nodes: seq<Node>, amount: nat) {
    forall i :: 0 <= i < |nodes| ==> nodes[i].htlcMin <= Reaching(nodes, i, amount)
  }

  lemma ReachingCons(nodes: seq<Node>, amount: nat)
    requires nodes != []
    ensures Reaching(nodes, 0, amount) == Incoming(nodes[0].relay, Reaching(nodes, 1, amount))
    ensures forall i :: 0 <= i <= |nodes| - 1 ==> Reaching(nodes[1..], i, amount) == Reaching(nodes, i + 1, amount)
  {
    assert nodes[0..] == nodes;
    assert Relays(nodes)[1..] == Relays(nodes[1..]);
    forall i | 0 <= i <= |nodes| - 1 ensures Reaching(nodes[1..], i, amount) == Reaching(nodes, i + 1, amount) {
      assert nodes[1..][i..] == nodes[i + 1..];
    }
  }

  lemma UnderMaximaCons(nodes: seq<Node>, amount: nat)
    requires nodes != []
    ensures UnderMaxima(nodes, amount) <==>
              Reaching(nodes, 0, amount) <= nodes[0].htlcMax && UnderMaxima(nodes[1..], amount)
  {
    ReachingCons(nodes, amount);
    if UnderMaxima(nodes[1..], amount) && Reaching(nodes, 0, amount) <= nodes[0].htlcMax {
      forall i | 0 <= i < |nodes| ensures Reaching(nodes, i, amount) <= nodes[i].htlcMax {
        if i > 0 { assert Reaching(nodes[1..], i - 1, amount) <= nodes[1..][i - 1].htlcMax; }
      }
    }
  }

  lemma OverMinimaTail(nodes: seq<Node>, amount: nat)
    requires nodes != [] && OverMinima(nodes, amount)
    ensures nodes[0].htlcMin <= Reaching(nodes, 0, amount) && OverMinima(nodes[1..], amount)
  {
    ReachingCons(nodes, amount);
    forall i | 0 <= i < |nodes[1..]| ensures nodes[1..][i].htlcMin <= Reaching(nodes[1..], i, amount) {
      assert nodes[i + 1].htlcMin <= Reaching(nodes, i + 1, amount);
    }
  }

  // An amount is within the folded maximum exactly when it keeps every hop within its own maximum
  // and the path's entry within the cap; if the fold is refused for it, no amount does.
  lemma {:induction false} MaximumExactlyWhen(nodes: seq<Node>, l: Limits, amount: nat)
    requires ThroughAll(nodes, l).Done?
    ensures amount <= ThroughAll(nodes, l).value.max <==>
              UnderMaxima(nodes, amount) && Reaching(nodes, 0, amount) <= l.max
    decreases nodes
  {
    hide MinAfter;
    if nodes == [] {
      assert nodes[0..] == [];
    } else {
      var m := Through(nodes[0], l).value;
      MaximumExactlyWhen(nodes[1..], m, amount);
      ReachingCons(nodes, amount);
      UnderMaximaCons(nodes, amount);
      ForwardExactlyWhen(nodes[0].relay, Min(nodes[0].htlcMax, l.max), Reaching(nodes, 1, amount));
      assert Reaching(nodes[1..], 0, amount) == Reaching(nodes, 1, amount);
    }
  }

  function CltvSum(nodes: seq<Node>): nat {
    if nodes == [] then 0 else nodes[0].relay.cltvDelta + CltvSum(nodes[1..])
  }

  ghost predicate AllKnown(nodes: seq<Node>) {
    forall n :: n in nodes ==> !n.unknownFeatures
  }

  // Without panics, the fold succeeds exactly when all features are known, the expiry fits 16 bits
  // and the fees alone (delivering nothing) keep every hop within its maximum.
  lemma {:induction false} FoldedExactlyWhen(nodes: seq<Node>, l: Limits)
    requires !ThroughAll(nodes, l).Panicked? && l.cltv < U16
    ensures ThroughAll(nodes, l).Done? <==>
              && AllKnown(nodes) && l.cltv + CltvSum(nodes) < U16
              && UnderMaxima(nodes, 0) && Reaching(nodes, 0, 0) <= l.max
    ensures ThroughAll(nodes, l).Done? ==> ThroughAll(nodes, l).value.cltv == l.cltv + CltvSum(nodes)
    decreases nodes
  {
    if nodes == [] {
      assert nodes[0..] == [];
    } else {
      var n := nodes[0];
      assert n in nodes;
      assert AllKnown(nodes) <==> !n.unknownFeatures && AllKnown(nodes[1..]) by {
        assert forall x :: x in nodes <==> x == n || x in nodes[1..];
      }
      ReachingCons(nodes, 0);
      UnderMaximaCons(nodes, 0);
      if !n.unknownFeatures && l.cltv + n.relay.cltvDelta < U16 {
        ForwardExactlyWhen(n.relay, Min(n.htlcMax, l.max), Reaching(nodes, 1, 0));
        assert Reaching(nodes[1..], 0, 0) == Reaching(nodes, 1, 0);
        match Through(n, l)
        case Done(m) => FoldedExactlyWhen(nodes[1..], m);
        case Refused =>
          assert AmtToForward(n.relay, Min(n.htlcMax, l.max)).BelowBase?;
      }
    }
  }

  // A positive amount below the folded minimum breaks some hop's minimum, or the entry's.
  lemma {:induction false} BelowMinimumBreaks(nodes: seq<Node>, l: Limits, amount: nat)
    requires ThroughAll(nodes, l).Done? && 0 < amount < ThroughAll(nodes, l).value.min
    ensures !OverMinima(nodes, amount) || Reaching(nodes, 0, amount) < l.min
    decreases nodes
  {
    hide MaxAfter;
    if nodes == [] {
      assert nodes[0..] == [];
    } else if OverMinima(nodes, amount) && l.min <= Reaching(nodes, 0, amount) {
      var m, y := Through(nodes[0], l).value, Reaching(nodes, 1, amount);
      ReachingCons(nodes, amount);
      OverMinimaTail(nodes, amount);
      assert Reaching(nodes[1..], 0, amount) == y;
      ReachingAtLeast(nodes[1..], amount);
      EnoughForMin(nodes[0], l.min, y);
      BelowMinimumBreaks(nodes[1..], m, amount);
    }
  }

  lemma EnoughForMin(n: Node, min: nat, outgoing: nat)
    requires MinAfter(n, min).Done? && outgoing > 0
    requires Max(n.htlcMin, min) <= Incoming(n.relay, outgoing)
    ensures MinAfter(n, min).value <= outgoing
  {
    match AmtToForward(n.relay, Max(n.htlcMin, min))
    case BelowBase =>
    case Forward(f) =>
      ForwardIsLargest(n.relay, Max(n.htlcMin, min), f);
      if outgoing < f { IncomingGrows(n.relay, outgoing, f); }
  }

  lemma ReachingAtLeast(nodes: seq<Node>, amount: nat)
    ensures amount <= Reaching(nodes, 0, amount)
  {
    assert nodes[0..] == nodes;
    PathIncomingAtLeast(Relays(nodes), amount);
  }

  lemma {:induction false} PathIncomingAtLeast(path: seq<Relay>, amount: nat)
    ensures amount <= PathIncoming(path, amount)
  {
    if path != [] {
      PathIncomingAtLeast(path[1..], amount);
    }
  }

  // ---- The folded minimum itself ----

  // The running minimum after a hop; 0 stands for the panic.
  function NextMin(n: Node, min: nat): nat {
    match MinAfter(n, min)
    case Done(m) => m
    case _ => 0
  }

  // Forwarding the running minimum costs at least what the hop, or an earlier one, asks for.
  predicate Reaches(n: Node, min: nat) {
    Max(n.htlcMin, min) <= Incoming(n.relay, NextMin(n, min))
  }

  // The hop asks for more than the running minimum, or takes more than that as its base fee.
  predicate Raises(n: Node, min: nat) {
    min < n.htlcMin || Max(n.htlcMin, min) < n.relay.base
  }

  predicate RaisesSomewhere(nodes: seq<Node>, min: nat)
    decreases nodes
  {
    nodes != [] && (Raises(nodes[0], min) || RaisesSomewhere(nodes[1..], NextMin(nodes[0], min)))
  }

  // Every hop is reached by its own running minimum, or followed by one that raises it.
  predicate AllReached(nodes: seq<Node>, min: nat)
    decreases nodes
  {
    nodes == [] ||
    var next := NextMin(nodes[0], min);
    (Reaches(nodes[0], min) || RaisesSomewhere(nodes[1..], next)) && AllReached(nodes[1..], next)
  }

  lemma OverMinimaCons(nodes: seq<Node>, amount: nat)
    requires nodes != []
    ensures OverMinima(nodes, amount) <==>
              nodes[0].htlcMin <= Reaching(nodes, 0, amount) && OverMinima(nodes[1..], amount)
  {
    ReachingCons(nodes, amount);
    if OverMinima(nodes[1..], amount) && nodes[0].htlcMin <= Reaching(nodes, 0, amount) {
      forall i | 0 <= i < |nodes| ensures nodes[i].htlcMin <= Reaching(nodes, i, amount) {
        if i > 0 { assert nodes[1..][i - 1].htlcMin <= Reaching(nodes[1..], i - 1, amount); }
      }
    }
    if OverMinima(nodes, amount) { OverMinimaTail(nodes, amount); }
  }

  // What goes into a hop, against its running minimum, as what comes out is compared with the next one.
  lemma HopCompared(n: Node, min: nat, outgoing: nat)
    requires MinAfter(n, min).Done? && outgoing > 0
    ensures var t, next := Max(n.htlcMin, min), NextMin(n, min);
            && (outgoing > next ==> Incoming(n.relay, outgoing) > t)
            && (outgoing < next ==> Incoming(n.relay, outgoing) < t)
            && (outgoing == next && Reaches(n, min) ==>
                  (Incoming(n.relay, outgoing) > t <==> t < n.relay.base))
  {
    var t := Max(n.htlcMin, min);
    match AmtToForward(n.relay, t)
    case BelowBase =>
    case Forward(f) =>
      ForwardIsLargest(n.relay, t, f);
      if outgoing > f { IncomingGrows(n.relay, f + 1, outgoing); }
      if outgoing < f { IncomingGrows(n.relay, outgoing, f); }
  }

  // An amount above the folded minimum satisfies every hop's minimum, and the entry's with something over.
  lemma {:induction false} AboveMinimumSuffices(nodes: seq<Node>, l: Limits, amount: nat)
    requires ThroughAll(nodes, l).Done? && amount > ThroughAll(nodes, l).value.min
    ensures OverMinima(nodes, amount) && Reaching(nodes, 0, amount) > l.min
    decreases nodes
  {
    hide MinAfter, MaxAfter;
    if nodes == [] {
      assert nodes[0..] == [];
    } else {
      var m, y := Through(nodes[0], l).value, Reaching(nodes, 1, amount);
      AboveMinimumSuffices(nodes[1..], m, amount);
      ReachingCons(nodes, amount);
      assert Reaching(nodes[1..], 0, amount) == y;
      HopCompared(nodes[0], l.min, y);
      OverMinimaCons(nodes, amount);
    }
  }

  // A positive folded minimum satisfies every hop's minimum exactly when each hop is reached or
  // followed by one that raises the running minimum; and then it has something over at the entry
  // exactly when some hop raises it.
  lemma {:induction false} MinimumReachedExactlyWhen(nodes: seq<Node>, l: Limits)
    requires ThroughAll(nodes, l).Done? && ThroughAll(nodes, l).value.min > 0
    ensures var m := ThroughAll(nodes, l).value.min;
            && (OverMinima(nodes, m) && l.min <= Reaching(nodes, 0, m) <==> AllReached(nodes, l.min))
            && (AllReached(nodes, l.min) ==> (Reaching(nodes, 0, m) > l.min <==> RaisesSomewhere(nodes, l.min)))
    decreases nodes
  {
    hide MinAfter, MaxAfter, OverMinima;
    var m := ThroughAll(nodes, l).value.min;
    if nodes == [] {
      assert nodes[0..] == [];
      NoMinima(m);
    } else {
      var n, rest, next := nodes[0], nodes[1..], Through(nodes[0], l).value;
      var y := Reaching(nodes, 1, m);
      MinimumReachedExactlyWhen(rest, next);
      ReachingCons(nodes, m);
      assert Reaching(rest, 0, m) == y;
      ReachingAtLeast(rest, m);
      HopCompared(n, l.min, y);
      OverMinimaCons(nodes, m);
      NextIs(n, l.min);
    }
  }

  lemma NoMinima(amount: nat)
    ensures OverMinima([], amount)
  {
  }

  lemma NextIs(n: Node, min: nat)
    requires MinAfter(n, min).Done?
    ensures NextMin(n, min) == MinAfter(n, min).value
    ensures Max(n.htlcMin, min) < n.relay.base ==> Reaches(n, min)
  {
  }

  // Which amounts satisfy every hop's minimum: all above the folded one, none below it, and the
  // folded one itself under the condition above.
  lemma MinimaMetExactlyWhen(nodes: seq<Node>, l: Limits, amount: nat)
    requires ThroughAll(nodes, l).Done? && l.min <= 1 <= amount
    ensures var m := ThroughAll(nodes, l).value.min;
            OverMinima(nodes, amount) <==> amount > m || (amount == m && AllReached(nodes, l.min))
  {
    hide ThroughAll, OverMinima, AllReached;
    var m := ThroughAll(nodes, l).value.min;
    ReachingAtLeast(nodes, amount);
    if amount < m {
      BelowMinimumBreaks(nodes, l, amount);
    } else if amount > m {
      AboveMinimumSuffices(nodes, l, amount);
    } else {
      MinimumReachedExactlyWhen(nodes, l);
    }
  }

  // An amount every hop and the payee accept, entering within the supply, is in the advertised range;
  // and every amount of the range is accepted, except that its lowest one may miss some minimum.
  lemma AdvertisedRange(nodes: seq<Node>, payeeMin: nat, payeeMax: nat, finalCltv: nat, amount: nat)
    requires amount > 0
    ensures
      var r := PayInfoFor(nodes, payeeMin, payeeMax, finalCltv);
      r.Done? ==>
        var limits := r.value.limits;
        && (amount <= limits.max <==>
              amount <= payeeMax && UnderMaxima(nodes, amount) && Reaching(nodes, 0, amount) <= SUPPLY_MSAT)
        && (amount < limits.min ==> amount < payeeMin || !OverMinima(nodes, amount))
        && (amount > limits.min ==> amount > payeeMin && OverMinima(nodes, amount))
        && (amount == limits.min ==>
              (OverMinima(nodes, amount) <==>
                 amount > ThroughAll(nodes, Limits(finalCltv, 1, SUPPLY_MSAT)).value.min || AllReached(nodes, 1)))
        && PathIncoming(Relays(nodes), amount) <= Paid(r.value.fees, amount)
  {
    hide ThroughAll, UnderMaxima, OverMinima, AllReached;
    var start := Limits(finalCltv, 1, SUPPLY_MSAT);
    if PayInfoFor(nodes, payeeMin, payeeMax, finalCltv).Done? {
      var fees := PathFees(Relays(nodes)).value;
      MaximumExactlyWhen(nodes, start, amount);
      AggregateCoversPath(Relays(nodes), fees, amount);
      MinimaMetExactlyWhen(nodes, start, amount);
    }
  }

  // What a hop makes of the running limits: of the minimum the largest amount that fits with its fee,
  // or 1 when its base fee alone takes more; of the maximum the largest amount that fits, or a refusal.
  lemma LimitsAfterHop(n: Node, min: nat, max: nat)
    requires n.relay.prop < 2 * MILLION
    ensures
      var t := Max(n.htlcMin, min);
      MinAfter(n, min).Done?
      && if t < n.relay.base then MinAfter(n, min).value == 1
         else Incoming(n.relay, MinAfter(n, min).value) <= t < Incoming(n.relay, MinAfter(n, min).value + 1)
    ensures
      var t := Min(n.htlcMax, max);
      if t < n.relay.base then MaxAfter(n, max).Refused?
      else MaxAfter(n, max).Done?
           && Incoming(n.relay, MaxAfter(n, max).value) <= t < Incoming(n.relay, MaxAfter(n, max).value + 1)
  {
    hide FirstGuess;
    var a, b := Max(n.htlcMin, min), Min(n.htlcMax, max);
    NoUnderflowBelow(n.relay, a);
    NoUnderflowBelow(n.relay, b);
    if a >= n.relay.base { ForwardIsLargest(n.relay, a, AmtToForward(n.relay, a).amount); }
    if b >= n.relay.base { ForwardIsLargest(n.relay, b, AmtToForward(n.relay, b).amount); }
  }

  lemma {:induction false} FoldDoesNotPanic(nodes: seq<Node>, l: Limits)
    requires forall n :: n in nodes ==> n.relay.prop < 2 * MILLION
    ensures !ThroughAll(nodes, l).Panicked?
    decreases nodes
  {
    hide MinAfter, MaxAfter;
    if nodes != [] {
      assert nodes[0] in nodes;
      LimitsAfterHop(nodes[0], l.min, l.max);
      if Through(nodes[0], l).Done? { FoldDoesNotPanic(nodes[1..], Through(nodes[0], l).value); }
    }
  }

  // With every rate below 200%, information is advertised exactly when the fees of the path fit 32 bits,
  // all features are known, the expiry fits 16 bits, the fees alone keep every hop within its maximum,
  // and the lowest amount of the range keeps the payee and every hop within theirs. It then names the
  // expiry of the whole path and its fees.
  lemma AdvertisedExactlyWhen(nodes: seq<Node>, payeeMin: U64Value, payeeMax: U64Value, finalCltv: U16Value)
    requires forall n :: n in nodes ==> n.relay.prop < 2 * MILLION
    ensures
      var r, fees := PayInfoFor(nodes, payeeMin, payeeMax, finalCltv), PathFees(Relays(nodes));
      var fold := ThroughAll(nodes, Limits(finalCltv, 1, SUPPLY_MSAT));
      && (fold.Done? <==>
            AllKnown(nodes) && finalCltv + CltvSum(nodes) < U16 && UnderMaxima(nodes, 0)
            && Reaching(nodes, 0, 0) <= SUPPLY_MSAT)
      && (r.Done? <==>
            && fees.Some? && fees.value.base < U32 && fees.value.prop < U32
            && fold.Done?
            && var lowest := Max(payeeMin, fold.value.min);
               lowest <= payeeMax && UnderMaxima(nodes, lowest) && Reaching(nodes, 0, lowest) <= SUPPLY_MSAT)
      && (r.Done? ==>
            r.value.fees == fees.value && r.value.limits.cltv == finalCltv + CltvSum(nodes)
            && r.value.limits.min == Max(payeeMin, fold.value.min))
      && (!r.Done? ==> r.Refused?)
  {
    hide ThroughAll, UnderMaxima, Reaching, AllKnown;
    var start := Limits(finalCltv, 1, SUPPLY_MSAT);
    FoldDoesNotPanic(nodes, start);
    FoldedExactlyWhen(nodes, start);
    if ThroughAll(nodes, start).Done? {
      MaximumExactlyWhen(nodes, start, Max(payeeMin, ThroughAll(nodes, start).value.min));
    }
  }

  // Three hops that each keep half: the first asks for 103, twelve is advertised, and only 96 reaches it.
  lemma MinimumCanFallShort()
    ensures
      var n := Node(Relay(0, 1_000_000, 0), false, 1, 1_000_000);
      var nodes := [n.(htlcMin := 103), n, n];
      var r := PayInfoFor(nodes, 0, 1_000_000, 0);
      && r.Done? && r.value.limits.min == 12
      && Reaching(nodes, 0, 12) == 96 && !OverMinima(nodes, 12) && OverMinima(nodes, 13)
  {
    hide Through, FirstGuess, OverMinima, Reaching;
    var n := Node(Relay(0, 1_000_000, 0), false, 1, 1_000_000);
    var first := n.(htlcMin := 103);
    var nodes := [first, n, n];
    HalvingFolds(nodes, first, n);
    HalvingFees(nodes, n);
    HalvingReaches(nodes, n, 12);
    assert !OverMinima(nodes, 12) by { NotOverFirst(nodes, 12); }
    MinimaMetExactlyWhen(nodes, Limits(0, 1, SUPPLY_MSAT), 13);
  }

  lemma NotOverFirst(nodes: seq<Node>, amount: nat)
    requires nodes != [] && Reaching(nodes, 0, amount) < nodes[0].htlcMin
    ensures !OverMinima(nodes, amount)
  {
  }

  lemma HalvingFolds(nodes: seq<Node>, first: Node, n: Node)
    requires n == Node(Relay(0, 1_000_000, 0), false, 1, 1_000_000)
    requires first == n.(htlcMin := 103) && nodes == [first, n, n]
    ensures ThroughAll(nodes, Limits(0, 1, SUPPLY_MSAT)) == Done(Limits(0, 12, 125_000))
  {
    hide Through;
    HalfThrough(first, Limits(0, 1, SUPPLY_MSAT));
    HalfThrough(n, Limits(0, 51, 500_000));
    HalfThrough(n, Limits(0, 25, 250_000));
    assert nodes[1..] == [n, n] && [n, n][1..] == [n] && [n][1..] == [];
    assert ThroughAll([n], Limits(0, 25, 250_000)) == Done(Limits(0, 12, 125_000));
    assert ThroughAll([n, n], Limits(0, 51, 500_000)) == Done(Limits(0, 12, 125_000));
  }

  lemma HalfThrough(n: Node, l: Limits)
    requires n.relay == Relay(0, 1_000_000, 0) && !n.unknownFeatures && l.cltv == 0
    ensures Through(n, l) == Done(Limits(0, Max(n.htlcMin, l.min) / 2, Min(n.htlcMax, l.max) / 2))
  {
    hide AmtToForward;
    Halved(n.relay, Max(n.htlcMin, l.min));
    Halved(n.relay, Min(n.htlcMax, l.max));
  }

  lemma Halved(r: Relay, inbound: nat)
    requires r == Relay(0, 1_000_000, 0)
    ensures AmtToForward(r, inbound) == Forward(inbound / 2)
  {
  }

  lemma HalvingFees(nodes: seq<Node>, n: Node)
    requires n.relay == Relay(0, 1_000_000, 0)
    requires |nodes| == 3 && nodes[0].relay == nodes[1].relay == nodes[2].relay == n.relay
    ensures PathFees(Relays(nodes)) == Some(Fees(0, 7_000_000))
  {
    var r, path := n.relay, Relays(nodes);
    assert path == [r, r, r] && path[1..] == [r, r] && [r, r][1..] == [r] && [r][1..] == [];
    assert AddHop(Fees(0, 0), r) == Some(Fees(0, 1_000_000));
    assert AddHop(Fees(0, 1_000_000), r) == Some(Fees(0, 3_000_000));
    assert AddHop(Fees(0, 3_000_000), r) == Some(Fees(0, 7_000_000));
    assert PathFees([r]) == Some(Fees(0, 1_000_000));
    assert PathFees([r, r]) == Some(Fees(0, 3_000_000));
  }

  lemma HalvingReaches(nodes: seq<Node>, n: Node, amount: nat)
    requires n.relay == Relay(0, 1_000_000, 0)
    requires |nodes| == 3 && nodes[0].relay == nodes[1].relay == nodes[2].relay == n.relay
    ensures Reaching(nodes, 0, amount) == 8 * amount
  {
    var r, path := n.relay, Relays(nodes);
    assert nodes[0..] == nodes;
    assert path == [r, r, r] && path[1..] == [r, r] && [r, r][1..] == [r] && [r][1..] == [];
    assert PathIncoming([], amount) == amount;
    assert PathIncoming([r], amount) == 2 * amount;
    assert PathIncoming([r, r], amount) == 4 * amount;
  }
}
