// Fee arithmetic for blinded payment paths: what a hop forwards, and the fees and limits of a whole
// path. Amounts are in millisatoshi. Part of the "Route Blinding" section of BOLT 4.
module BlindedFees {
  import opened Common

  const MILLION: nat := 1_000_000

  type U16Value = x: nat | x < U16
  type U32Value = x: nat | x < U32
  type U64Value = x: nat | x < U64

  datatype Relay = Relay(cltvDelta: U16Value, prop: U32Value, base: U32Value)

  // ---- One hop ----

  // What a hop charges for forwarding `amount`.
  function FeeFor(r: Relay, amount: nat): nat {
    r.base + amount * r.prop / MILLION
  }

  // What has to come in for `amount` to go out.
  function Incoming(r: Relay, amount: nat): nat {
    amount + FeeFor(r, amount)
  }

  // `Underflows` is the subtraction `inbound_amt - fee` going below zero.
  datatype Forwarded = BelowBase | Underflows | Forward(amount: nat)

  // The forwarded amount before it is compared with what came in: rounded up.
  function FirstGuess(r: Relay, rest: nat): nat {
    (rest * MILLION + MILLION + r.prop - 1) / (r.prop + MILLION)
  }

  function AmtToForward(r: Relay, inbound: nat): Forwarded {
    if inbound < r.base then BelowBase
    else
      var guess := FirstGuess(r, inbound - r.base);
      var fee := FeeFor(r, guess);
      if inbound < fee then Underflows
      else if inbound - fee < guess then Forward(guess - 1)
      else Forward(guess)
  }

  // The equation the code asserts: amount and fee, the fee being that of the first guess, add up.
  ghost predicate AddsUp(r: Relay, inbound: nat) {
    match AmtToForward(r, inbound)
    case BelowBase => true
    case Underflows => false
    case Forward(f) => f + FeeFor(r, FirstGuess(r, inbound - r.base)) == inbound
  }

  lemma IncomingGrows(r: Relay, a: nat, b: nat)
    requires a <= b
    ensures b - a <= Incoming(r, b) - Incoming(r, a)
  {
    assert a * r.prop <= b * r.prop by { MulMono(a, b, r.prop); }
  }

  lemma MulMono(a: nat, b: nat, c: nat)
    requires a <= b
    ensures a * c <= b * c
  {
  }

  // The first guess is the least amount whose incoming amount reaches `base + rest`.
  lemma FirstGuessIsLeast(r: Relay, rest: nat)
    ensures
      var f := FirstGuess(r, rest);
      && r.base + rest <= Incoming(r, f)
      && (f > 0 ==> Incoming(r, f - 1) < r.base + rest)
      && MILLION * (Incoming(r, f) - r.base - rest) < MILLION + r.prop
  {
    var d, n := r.prop + MILLION, rest * MILLION + MILLION + r.prop - 1;
    var f := n / d;
    assert n == f * d + n % d;
    assert f * d == f * r.prop + f * MILLION;
    if f > 0 {
      assert (f - 1) * r.prop == f * r.prop - r.prop;
    }
  }

  // What is forwarded is the largest amount that, with its fee, fits in what came in.
  lemma ForwardIsLargest(r: Relay, inbound: nat, f: nat)
    requires AmtToForward(r, inbound) == Forward(f)
    ensures Incoming(r, f) <= inbound < Incoming(r, f + 1)
  {
    var guess := FirstGuess(r, inbound - r.base);
    FirstGuessIsLeast(r, inbound - r.base);
    IncomingGrows(r, guess, guess + 1);
  }

  // An amount can be forwarded out of `inbound` exactly when it is at most what the hop forwards.
  lemma ForwardExactlyWhen(r: Relay, inbound: nat, amount: nat)
    requires !AmtToForward(r, inbound).Underflows?
    ensures Incoming(r, amount) <= inbound <==>
              match AmtToForward(r, inbound)
              case Forward(f) => amount <= f
              case _ => false
  {
    match AmtToForward(r, inbound)
    case BelowBase =>
    case Forward(f) =>
      ForwardIsLargest(r, inbound, f);
      if amount <= f {
        IncomingGrows(r, amount, f);
      } else {
        IncomingGrows(r, f + 1, amount);
      }
  }

  lemma ForwardMonotone(r: Relay, a: nat, b: nat)
    requires a <= b && AmtToForward(r, a).Forward? && !AmtToForward(r, b).Underflows?
    ensures AmtToForward(r, b).Forward? && AmtToForward(r, a).amount <= AmtToForward(r, b).amount <= b
  {
    ForwardIsLargest(r, a, AmtToForward(r, a).amount);
    ForwardExactlyWhen(r, b, AmtToForward(r, a).amount);
    ForwardIsLargest(r, b, AmtToForward(r, b).amount);
  }

  // The asserted equation holds for every inbound amount exactly when the rate is at most 100%.
  lemma AddsUpExactlyWhen(r: Relay)
    ensures (forall inbound: U64Value :: AddsUp(r, inbound)) <==> r.prop <= MILLION
  {
    if r.prop <= MILLION {
      forall inbound: U64Value ensures AddsUp(r, inbound) {
        AddsUpBelow(r, inbound);
      }
    } else {
      var f := Jump(r);
      DoesNotAddUp(r, f);
      assert !AddsUp(r, Incoming(r, f - 1) + 1);
    }
  }

  lemma AddsUpBelow(r: Relay, inbound: nat)
    requires r.prop <= MILLION
    ensures AddsUp(r, inbound)
  {
    if r.base <= inbound {
      FirstGuessIsLeast(r, inbound - r.base);
      var guess := FirstGuess(r, inbound - r.base);
      if guess == 0 {
        assert Incoming(r, 0) == r.base;
      }
    }
  }

  // Above 100%, some amount costs at least three millisatoshi more than the amount before it.
  lemma Jump(r: Relay) returns (f: nat)
    requires r.prop > MILLION
    ensures f > 0 && Incoming(r, f) >= Incoming(r, f - 1) + 3
    ensures Incoming(r, f - 1) + 1 < U64
  {
    var q := r.prop - MILLION;
    f := LeastMultiple(q);
    RateSplits(q, f);
    RateSplits(q, f - 1);
  }

  // The least multiple of `q` that reaches a million.
  lemma LeastMultiple(q: nat) returns (f: nat)
    requires q > 0
    ensures 0 < f <= MILLION && (f - 1) * q / MILLION == 0 && f * q / MILLION >= 1
  {
    f := (q + MILLION - 1) / q;
    var rest := (q + MILLION - 1) % q;
    assert q + MILLION - 1 == f * q + rest;
    assert (f - 1) * q == f * q - q;
    assert (f - 1) * q < MILLION <= f * q;
    MulMono(1, q, f - 1);
  }

  lemma RateSplits(q: nat, f: nat)
    ensures f * (q + MILLION) / MILLION == f + f * q / MILLION
  {
    assert f * (q + MILLION) == f * q + f * MILLION;
    AddMillions(f * q, f);
  }

  lemma AddMillions(x: nat, n: nat)
    ensures (x + n * MILLION) / MILLION == x / MILLION + n
  {
  }

  lemma DoesNotAddUp(r: Relay, f: nat)
    requires f > 0 && Incoming(r, f) >= Incoming(r, f - 1) + 3
    ensures !AddsUp(r, Incoming(r, f - 1) + 1)
  {
    var inbound := Incoming(r, f - 1) + 1;
    var guess := FirstGuess(r, inbound - r.base);
    FirstGuessIsLeast(r, inbound - r.base);
    if guess < f {
      IncomingGrows(r, guess, f - 1);
    } else {
      IncomingGrows(r, f, guess);
    }
    OverGuess(r, inbound, guess);
  }

  lemma OverGuess(r: Relay, inbound: nat, guess: nat)
    requires r.base <= inbound && guess == FirstGuess(r, inbound - r.base)
    requires Incoming(r, guess) > inbound + 1
    ensures !AddsUp(r, inbound)
  {
    hide FirstGuess;
  }

  // The subtraction never underflows exactly when the rate is below 200%.
  lemma NeverUnderflowsExactlyWhen(r: Relay)
    ensures (forall inbound: U64Value :: !AmtToForward(r, inbound).Underflows?) <==> r.prop < 2 * MILLION
  {
    if r.prop < 2 * MILLION {
      forall inbound: U64Value ensures !AmtToForward(r, inbound).Underflows? {
        NoUnderflowBelow(r, inbound);
      }
    } else {
      assert FirstGuess(r, 1) == 1 by {
        assert 1 * (r.prop + MILLION) <= 2 * MILLION + r.prop - 1 < 2 * (r.prop + MILLION);
        DivIs(2 * MILLION + r.prop - 1, r.prop + MILLION, 1);
      }
      assert AmtToForward(r, r.base + 1).Underflows?;
    }
  }

  lemma DivIs(n: nat, d: nat, q: nat)
    requires d > 0 && q * d <= n < (q + 1) * d
    ensures n / d == q
  {
    assert n == (n / d) * d + n % d;
    var k := n / d;
    if k < q {
      MulMono(k + 1, q, d);
    }
    if q < k {
      MulMono(q + 1, k, d);
    }
  }

  lemma NoUnderflowBelow(r: Relay, inbound: nat)
    requires r.prop < 2 * MILLION
    ensures !AmtToForward(r, inbound).Underflows?
  {
    if r.base <= inbound {
      var guess := FirstGuess(r, inbound - r.base);
      FirstGuessIsLeast(r, inbound - r.base);
      if guess == 0 {
        assert Incoming(r, 0) == r.base;
      } else if guess == 1 {
        assert Incoming(r, 0) == r.base;
      }
    }
  }

  // ---- The fees of a path ----

  datatype Fees = Fees(base: nat, prop: nat)

  // One more hop in front, in 64-bit arithmetic; `None` when it does not fit.
  function AddHop(c: Fees, r: Relay): Option<Fees> {
    var scaledBase := c.base * (MILLION + r.prop) + (MILLION - 1);
    if scaledBase >= U64 || scaledBase / MILLION + r.base >= U64 then None
    else if c.prop + MILLION >= U64 then None
    else
      var scaledProp := (r.prop + MILLION) * (c.prop + MILLION) + (MILLION - 1);
      if scaledProp >= U64 || scaledProp / MILLION < MILLION then None
      else Some(Fees(scaledBase / MILLION + r.base, scaledProp / MILLION - MILLION))
  }

  // The fees of a path, hop by hop from its end.
  function PathFees(path: seq<Relay>): Option<Fees> {
    if path == [] then Some(Fees(0, 0))
    else match PathFees(path[1..])
      case None => None
      case Some(c) => AddHop(c, path[0])
  }

  // One more hop in front, every step of the arithmetic checked.
  method OneMoreHop(base: nat, prop: nat, hop: Relay) returns (r: Option<Fees>)
    ensures r == AddHop(Fees(base, prop), hop)
  {
    var scaledBase := base * (MILLION + hop.prop);
    if scaledBase >= U64 || scaledBase + (MILLION - 1) >= U64 { return None; }
    scaledBase := (scaledBase + (MILLION - 1)) / MILLION + hop.base;
    if scaledBase >= U64 { return None; }
    if prop + MILLION >= U64 { return None; }
    var scaledProp := (hop.prop + MILLION) * (prop + MILLION);
    if scaledProp >= U64 || scaledProp + (MILLION - 1) >= U64 { return None; }
    scaledProp := (scaledProp + (MILLION - 1)) / MILLION;
    if scaledProp < MILLION { return None; }
    return Some(Fees(scaledBase, scaledProp - MILLION));
  }

  method ComputeAggregatedBasePropFee(path: seq<Relay>) returns (r: Option<Fees>)
    ensures r == PathFees(path)
  {
    hide AddHop;
    var base: nat, prop: nat := 0, 0;
    var i := |path|;
    while i > 0
      invariant 0 <= i <= |path|
      invariant PathFees(path[i..]) == Some(Fees(base, prop))
    {
      i := i - 1;
      assert path[i..][1..] == path[i + 1..];
      PathFeesNone(path, i);
      var next := OneMoreHop(base, prop, path[i]);
      if next.None? { return None; }
      base, prop := next.value.base, next.value.prop;
    }
    assert path[0..] == path;
    return Some(Fees(base, prop));
  }

  // Once the fees of a tail do not fit, those of the path do not either.
  lemma {:induction false} PathFeesNone(path: seq<Relay>, i: nat)
    requires i <= |path|
    ensures PathFees(path[i..]).None? ==> PathFees(path).None?
    decreases i
  {
    if i == 0 {
      assert path[0..] == path;
    } else {
      assert path[i - 1..][1..] == path[i..];
      PathFeesNone(path, i - 1);
    }
  }

  // `q` is the least number of whole units that covers `n` millionths.
  ghost predicate LeastCovering(q: int, n: nat) {
    MILLION * (q - 1) < n <= MILLION * q
  }

  // `c` adds the hop's own base fee to the least that pays its rate on the base of the rest, and its
  // rate is the least that compounds that of the hop with that of the rest.
  ghost predicate Compounds(c: Fees, rest: Fees, hop: Relay) {
    && LeastCovering(c.base - hop.base, rest.base * (MILLION + hop.prop))
    && LeastCovering(c.prop + MILLION, (hop.prop + MILLION) * (rest.prop + MILLION))
  }

  // Every product and sum fits in 64 bits.
  ghost predicate Fits(c: Fees, rest: Fees, hop: Relay) {
    && rest.base * (MILLION + hop.prop) + 999_999 < U64 && c.base < U64
    && (hop.prop + MILLION) * (rest.prop + MILLION) + 999_999 < U64 && rest.prop + MILLION < U64
  }

  lemma CoveringIs(q: int, n: nat)
    ensures LeastCovering(q, n) <==> q == (n + (MILLION - 1)) / MILLION
  {
  }

  lemma HopIs(c: Fees, rest: Fees, hop: Relay)
    ensures AddHop(rest, hop) == Some(c) <==> Compounds(c, rest, hop) && Fits(c, rest, hop)
  {
    hide LeastCovering, AddHop, Summed, Compounds, Fits;
    var n, m := rest.base * (MILLION + hop.prop), (hop.prop + MILLION) * (rest.prop + MILLION);
    RatesCompound(hop.prop, rest.prop);
    HopOf(rest, hop, n, m);
    ProductsOf(c, rest, hop, n, m);
    SumsOf(c, n, m, hop.base, rest.prop);
  }

  lemma HopOf(rest: Fees, hop: Relay, n: nat, m: nat)
    requires n == rest.base * (MILLION + hop.prop) && m == (hop.prop + MILLION) * (rest.prop + MILLION)
    ensures AddHop(rest, hop) == Summed(n, m, rest.prop, hop.base)
  {
  }

  // A hop with its products `n` and `m` computed.
  function Summed(n: nat, m: nat, restProp: nat, base: nat): Option<Fees> {
    var b, p := (n + (MILLION - 1)) / MILLION, (m + (MILLION - 1)) / MILLION;
    if n + (MILLION - 1) >= U64 || b + base >= U64 || restProp + MILLION >= U64 || m + (MILLION - 1) >= U64
       || p < MILLION then None
    else Some(Fees(b + base, p - MILLION))
  }

  ghost predicate Adds(c: Fees, n: nat, m: nat, base: nat, restProp: nat) {
    && LeastCovering(c.base - base, n) && LeastCovering(c.prop + MILLION, m)
    && n + 999_999 < U64 && c.base < U64 && m + 999_999 < U64 && restProp + MILLION < U64
  }

  lemma ProductsOf(c: Fees, rest: Fees, hop: Relay, n: nat, m: nat)
    requires n == rest.base * (MILLION + hop.prop) && m == (hop.prop + MILLION) * (rest.prop + MILLION)
    ensures Compounds(c, rest, hop) && Fits(c, rest, hop) <==> Adds(c, n, m, hop.base, rest.prop)
  {
    hide LeastCovering;
  }

  lemma SumsOf(c: Fees, n: nat, m: nat, base: nat, restProp: nat)
    requires m >= MILLION * MILLION
    ensures Summed(n, m, restProp, base) == Some(c) <==> Adds(c, n, m, base, restProp)
  {
    CoveringIs(c.base - base, n);
    CoveringIs(c.prop + MILLION, m);
    hide LeastCovering;
  }

  lemma RatesCompound(a: nat, b: nat)
    ensures (a + MILLION) * (b + MILLION) >= MILLION * MILLION
  {
    MulMono(MILLION, a + MILLION, MILLION);
    MulMono(MILLION, b + MILLION, a + MILLION);
  }

  // The fees of a path are the least that compound those of its first hop with those of the rest; there
  // are none exactly when the rest has none or something on the way does not fit in 64 bits.
  lemma AggregateIsLeast(path: seq<Relay>, c: Fees)
    ensures PathFees([]) == Some(Fees(0, 0))
    ensures path != [] ==>
              (PathFees(path) == Some(c) <==>
                 PathFees(path[1..]).Some? && Compounds(c, PathFees(path[1..]).value, path[0])
                 && Fits(c, PathFees(path[1..]).value, path[0]))
  {
    hide AddHop, Compounds, Fits;
    if path != [] && PathFees(path[1..]).Some? { HopIs(c, PathFees(path[1..]).value, path[0]); }
  }

  // What has to enter the path for `amount` to be delivered, each hop keeping its fee.
  function PathIncoming(path: seq<Relay>, amount: nat): nat {
    if path == [] then amount else Incoming(path[0], PathIncoming(path[1..], amount))
  }

  // What a sender who only knows the aggregate pays in.
  function Paid(c: Fees, amount: nat): nat {
    amount + c.base + amount * c.prop / MILLION
  }

  // What is delivered when `amount` enters and every hop forwards what `AmtToForward` says.
  function Delivered(path: seq<Relay>, amount: nat): Forwarded {
    if path == [] then Forward(amount)
    else match AmtToForward(path[0], amount)
      case Forward(f) => Delivered(path[1..], f)
      case other => other
  }

  // The aggregate never asks for less than the hops do.
  lemma {:induction false} AggregateCoversPath(path: seq<Relay>, c: Fees, amount: nat)
    requires PathFees(path) == Some(c)
    ensures PathIncoming(path, amount) <= Paid(c, amount)
  {
    if path != [] {
      var rest := PathFees(path[1..]).value;
      AggregateCoversPath(path[1..], rest, amount);
      IncomingGrows(path[0], PathIncoming(path[1..], amount), Paid(rest, amount));
      HopCovered(rest, path[0], c, amount);
    }
  }

  lemma HopCovered(rest: Fees, r: Relay, c: Fees, amount: nat)
    requires AddHop(rest, r) == Some(c)
    ensures Incoming(r, Paid(rest, amount)) <= Paid(c, amount)
  {
    var z := amount + amount * rest.prop / MILLION;
    assert z * MILLION <= amount * (rest.prop + MILLION) by {
      assert amount * (rest.prop + MILLION) == amount * rest.prop + amount * MILLION;
    }
    var scaledBase := rest.base * (MILLION + r.prop);
    SplitFee(r, z, rest.base);
    var t := z * (MILLION + r.prop);
    assert t / MILLION <= amount + amount * c.prop / MILLION by {
      ScaledRate(z, amount, rest.prop, r.prop, c.prop);
    }
    assert scaledBase <= MILLION * (c.base - r.base);
  }

  lemma SplitFee(r: Relay, z: nat, base: nat)
    ensures MILLION * (Incoming(r, z + base) - r.base) <= z * (MILLION + r.prop) + base * (MILLION + r.prop)
  {
    assert (z + base) * r.prop == z * r.prop + base * r.prop;
    assert z * (MILLION + r.prop) == z * MILLION + z * r.prop;
    assert base * (MILLION + r.prop) == base * MILLION + base * r.prop;
  }

  lemma ScaledRate(z: nat, amount: nat, restProp: nat, hopProp: nat, prop: nat)
    requires z * MILLION <= amount * (restProp + MILLION)
    requires (hopProp + MILLION) * (restProp + MILLION) <= MILLION * (prop + MILLION)
    ensures z * (MILLION + hopProp) / MILLION <= amount + amount * prop / MILLION
  {
    var a, b, d := restProp + MILLION, hopProp + MILLION, prop + MILLION;
    ScaledProduct(z, amount, a, b, d);
    RateSplits(prop, amount);
  }

  lemma ScaledProduct(z: nat, amount: nat, a: nat, b: nat, d: nat)
    requires z * MILLION <= amount * a && b * a <= MILLION * d
    ensures z * b <= amount * d
  {
    MulMono(z * MILLION, amount * a, b);
    MulMono(b * a, MILLION * d, amount);
    Swapped(z, MILLION, b);
    assert z * b * MILLION <= amount * d * MILLION by {
      Swapped(amount, a, b);
      Swapped(MILLION, d, amount);
      Swapped(amount, b, a);
      assert b * a * amount == amount * (b * a) == amount * b * a by { Grouped(amount, b, a); }
      assert MILLION * amount * d == amount * d * MILLION by { Grouped(MILLION, amount, d); }
    }
  }

  lemma Swapped(x: nat, y: nat, z: nat)
    ensures x * y * z == x * z * y
  {
  }

  lemma Grouped(x: nat, y: nat, z: nat)
    ensures x * (y * z) == x * y * z
  {
  }

  // Paying what the aggregate says delivers at least the amount, whatever the hops on the path.
  lemma {:induction false} EnoughDelivers(path: seq<Relay>, entered: nat, amount: nat)
    requires PathIncoming(path, amount) <= entered && !Delivered(path, entered).Underflows?
    ensures Delivered(path, entered).Forward? && amount <= Delivered(path, entered).amount
  {
    if path != [] {
      ForwardExactlyWhen(path[0], entered, PathIncoming(path[1..], amount));
      EnoughDelivers(path[1..], AmtToForward(path[0], entered).amount, amount);
    }
  }

  lemma AggregateDelivers(path: seq<Relay>, c: Fees, amount: nat)
    requires PathFees(path) == Some(c)
    requires forall i :: 0 <= i < |path| ==> path[i].prop < 2 * MILLION
    ensures Delivered(path, Paid(c, amount)).Forward? && amount <= Delivered(path, Paid(c, amount)).amount
  {
    AggregateCoversPath(path, c, amount);
    DeliversWithout(path, Paid(c, amount));
    EnoughDelivers(path, Paid(c, amount), amount);
  }

  lemma {:induction false} DeliversWithout(path: seq<Relay>, entered: nat)
    requires forall i :: 0 <= i < |path| ==> path[i].prop < 2 * MILLION
    ensures !Delivered(path, entered).Underflows?
  {
    if path != [] {
      NoUnderflowBelow(path[0], entered);
      match AmtToForward(path[0], entered)
      case Forward(f) => DeliversWithout(path[1..], f);
      case _ =>
    }
  }

  // For one hop the aggregate is the hop's own fee.
  lemma OneHopIsExact(r: Relay, amount: nat)
    ensures PathFees([r]) == Some(Fees(r.base, r.prop))
    ensures Paid(Fees(r.base, r.prop), amount) == PathIncoming([r], amount)
  {
    var c := Fees(0, 0);
    assert PathFees([]) == Some(c);
    assert [r][1..] == [];
    assert AddHop(c, r) == Some(Fees(r.base, r.prop));
    assert PathIncoming([], amount) == amount;
  }
}
