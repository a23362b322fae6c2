// The mempool as a value: what it holds, the sizes it accounts for, and the ancestors of an entry.
module MempoolState {
  import opened Common

  type Txid = nat

  datatype TxIn = TxIn(txid: Txid, vout: nat)

  datatype Tx = Tx(txid: Txid, inputs: seq<TxIn>, outputs: seq<nat>, vsize: nat)

  datatype Entry = Entry(tx: Tx, fee: nat, feeRate: real, addedAt: int, ancestorCount: nat, descendantCount: nat) {
    function Size(): nat { tx.vsize }
  }

  type Entries = map<Txid, Entry>

  datatype Config = Config(maxBytes: nat, minFeeRate: real, maxAncestors: nat, maxDescendants: nat)

  datatype MempoolError =
    | Duplicate(txid: Txid)
    | Rejected
    | FeeTooLow(feeRate: real)
    | Full
    | TooManyAncestors(count: nat)
    | TooManyDescendants(count: nat)

  // ---- Sizes ----

  ghost function SizeOf(entries: Entries, ids: set<Txid>): nat
    requires ids <= entries.Keys
    decreases |ids|
  {
    if ids == {} then 0
    else
      var id :| id in ids;
      entries[id].Size() + SizeOf(entries, ids - {id})
  }

  lemma {:induction false} SizeOfMinus(entries: Entries, ids: set<Txid>, x: Txid)
    requires ids <= entries.Keys && x in ids
    ensures SizeOf(entries, ids) == entries[x].Size() + SizeOf(entries, ids - {x})
    decreases |ids|
  {
    var id :| id in ids && SizeOf(entries, ids) == entries[id].Size() + SizeOf(entries, ids - {id});
    if id != x {
      SizeOfMinus(entries, ids - {id}, x);
      SizeOfMinus(entries, ids - {x}, id);
      assert ids - {id} - {x} == ids - {x} - {id};
    }
  }

  // Only the sizes matter.
  lemma {:induction false} SizeOfFrame(a: Entries, b: Entries, ids: set<Txid>)
    requires ids <= a.Keys && ids <= b.Keys && forall id :: id in ids ==> a[id].Size() == b[id].Size()
    ensures SizeOf(a, ids) == SizeOf(b, ids)
    decreases |ids|
  {
    if ids != {} {
      var id :| id in ids;
      SizeOfMinus(a, ids, id);
      SizeOfMinus(b, ids, id);
      SizeOfFrame(a, b, ids - {id});
    }
  }

  ghost function TotalSize(entries: Entries): nat {
    SizeOf(entries, entries.Keys)
  }

  lemma TotalSizeInsert(entries: Entries, id: Txid, e: Entry)
    requires id !in entries
    ensures TotalSize(entries[id := e]) == TotalSize(entries) + e.Size()
  {
    var after := entries[id := e];
    SizeOfMinus(after, after.Keys, id);
    assert after.Keys - {id} == entries.Keys;
    SizeOfFrame(entries, after, entries.Keys);
  }

  lemma TotalSizeRemove(entries: Entries, id: Txid)
    requires id in entries
    ensures TotalSize(entries) == TotalSize(entries - {id}) + entries[id].Size()
  {
    var after := entries - {id};
    SizeOfMinus(entries, entries.Keys, id);
    assert after.Keys == entries.Keys - {id};
    SizeOfFrame(entries, after, after.Keys);
  }

  // ---- Admission ----

  function SumOutputs(outputs: seq<nat>): nat {
    if outputs == [] then 0 else outputs[0] + SumOutputs(outputs[1..])
  }

  // The value of the outputs spent, if every one of them is an output of a pooled transaction.
  function InputSum(entries: Entries, inputs: seq<TxIn>): Option<nat> {
    if inputs == [] then Some(0)
    else
      var rest := InputSum(entries, inputs[1..]);
      var i := inputs[0];
      if i.txid in entries && i.vout < |entries[i.txid].tx.outputs| && rest.Some? then
        Some(entries[i.txid].tx.outputs[i.vout] + rest.value)
      else None
  }

  // A caller that does not know the fee passes zero; then it is taken from the parents if it can be.
  function EffectiveFee(entries: Entries, tx: Tx, fee: nat): nat {
    if fee != 0 then fee
    else match InputSum(entries, tx.inputs)
      case None => 0
      case Some(sum) => if sum > SumOutputs(tx.outputs) then sum - SumOutputs(tx.outputs) else 0
  }

  function FeeRate(tx: Tx, fee: nat): real {
    if tx.vsize == 0 then 0.0 else fee as real / tx.vsize as real
  }

  // For each input spending a pooled transaction: that one, and the ancestors counted for it.
  function CountAncestors(entries: Entries, inputs: seq<TxIn>): nat {
    if inputs == [] then 0
    else
      (if inputs[0].txid in entries then 1 + entries[inputs[0].txid].ancestorCount else 0)
      + CountAncestors(entries, inputs[1..])
  }

  // The first parent that has no room for another child.
  function CrowdedParent(entries: Entries, inputs: seq<TxIn>, max: nat): Option<nat> {
    if inputs == [] then None
    else if inputs[0].txid in entries && entries[inputs[0].txid].descendantCount >= max then
      Some(entries[inputs[0].txid].descendantCount + 1)
    else CrowdedParent(entries, inputs[1..], max)
  }

  function Admit(entries: Entries, totalBytes: nat, config: Config, policy: Tx -> bool, tx: Tx, fee: nat, now: int)
    : Result<Entry, MempoolError>
  {
    if tx.txid in entries then Err(Duplicate(tx.txid))
    else if !policy(tx) then Err(Rejected)
    else
      var effective := EffectiveFee(entries, tx, fee);
      var rate := FeeRate(tx, effective);
      if effective > 0 && rate < config.minFeeRate then Err(FeeTooLow(rate))
      else if totalBytes + tx.vsize > config.maxBytes then Err(Full)
      else
        var ancestors := CountAncestors(entries, tx.inputs);
        if ancestors > config.maxAncestors then Err(TooManyAncestors(ancestors))
        else match CrowdedParent(entries, tx.inputs, config.maxDescendants)
          case Some(count) => Err(TooManyDescendants(count))
          case None => Ok(Entry(tx, effective, rate, now, ancestors, 0))
  }

  // How many of the inputs spend an output of a transaction.
  function Spends(inputs: seq<TxIn>, id: Txid): nat {
    if inputs == [] then 0 else (if inputs[0].txid == id then 1 else 0) + Spends(inputs[1..], id)
  }

  // Each pooled parent gains one child per input that spends it.
  lemma {:induction false} ChildrenCounted(entries: Entries, inputs: seq<TxIn>, id: Txid)
    requires id in entries
    ensures id in CountChild(entries, inputs)
    ensures CountChild(entries, inputs)[id].descendantCount == entries[id].descendantCount + Spends(inputs, id)
    decreases inputs
  {
    if inputs != [] {
      ChildrenCounted(OneMoreChild(entries, inputs[0].txid), inputs[1..], id);
    }
  }

  function OneMoreChild(entries: Entries, p: Txid): Entries {
    if p in entries then entries[p := entries[p].(descendantCount := entries[p].descendantCount + 1)] else entries
  }

  // Every input spending a pooled transaction counts as a child of it.
  function CountChild(entries: Entries, inputs: seq<TxIn>): Entries
    decreases inputs
  {
    if inputs == [] then entries
    else
      CountChild(OneMoreChild(entries, inputs[0].txid), inputs[1..])
  }

  function Added(entries: Entries, e: Entry): Entries {
    CountChild(entries[e.tx.txid := e], e.tx.inputs)
  }

  // Nothing but the number of descendants changes.
  ghost predicate SameButChildren(a: Entries, b: Entries) {
    a.Keys == b.Keys &&
    forall id :: id in a ==> b[id] == a[id].(descendantCount := b[id].descendantCount)
  }

  lemma {:induction false} CountChildKeeps(entries: Entries, inputs: seq<TxIn>)
    ensures SameButChildren(entries, CountChild(entries, inputs))
    decreases inputs
  {
    if inputs != [] {
      CountChildKeeps(OneMoreChild(entries, inputs[0].txid), inputs[1..]);
    }
  }

  lemma AddedSize(entries: Entries, e: Entry)
    requires e.tx.txid !in entries
    ensures TotalSize(Added(entries, e)) == TotalSize(entries) + e.Size()
  {
    TotalSizeInsert(entries, e.tx.txid, e);
    CountChildKeeps(entries[e.tx.txid := e], e.tx.inputs);
    SizeOfFrame(entries[e.tx.txid := e], Added(entries, e), Added(entries, e).Keys);
  }

  // ---- Ancestors ----

  // The pooled transactions among the parents named by the inputs.
  function Parents(entries: Entries, inputs: seq<TxIn>): set<Txid> {
    if inputs == [] then {}
    else (if inputs[0].txid in entries then {inputs[0].txid} else {}) + Parents(entries, inputs[1..])
  }

  // The pooled ancestors that the inputs reach in at most `depth` steps.
  function Reached(entries: Entries, inputs: seq<TxIn>, depth: nat): set<Txid>
    decreases depth, inputs
  {
    if depth == 0 || inputs == [] then {}
    else
      var p := inputs[0].txid;
      (if p in entries then {p} + Reached(entries, entries[p].tx.inputs, depth - 1) else {})
      + Reached(entries, inputs[1..], depth)
  }

  // No entry has more pooled ancestors than were counted for it, at whatever distance.
  ghost predicate AncestorsCounted(entries: Entries) {
    forall id, depth: nat :: id in entries ==>
      |Reached(entries, entries[id].tx.inputs, depth)| <= entries[id].ancestorCount
  }

  ghost predicate NoSpender(entries: Entries, id: Txid) {
    forall other :: other in entries ==> forall i :: i in entries[other].tx.inputs ==> i.txid != id
  }

  // Fewer entries, fewer ancestors.
  lemma {:induction false} ReachedShrinks(less: Entries, more: Entries, inputs: seq<TxIn>, depth: nat)
    requires forall id :: id in less ==> id in more && less[id].tx == more[id].tx
    ensures Reached(less, inputs, depth) <= Reached(more, inputs, depth)
    decreases depth, inputs
  {
    if depth > 0 && inputs != [] {
      var p := inputs[0].txid;
      if p in less {
        ReachedShrinks(less, more, less[p].tx.inputs, depth - 1);
      }
      ReachedShrinks(less, more, inputs[1..], depth);
    }
  }

  // Whatever is removed, the counts remain bounds.
  lemma RemovingKeepsAncestorsCounted(less: Entries, more: Entries)
    requires AncestorsCounted(more)
    requires forall id :: id in less ==>
               id in more && less[id] == more[id].(descendantCount := less[id].descendantCount)
    ensures AncestorsCounted(less)
  {
    forall id, depth: nat | id in less ensures |Reached(less, less[id].tx.inputs, depth)| <= less[id].ancestorCount {
      ReachedShrinks(less, more, less[id].tx.inputs, depth);
      Smaller(Reached(less, less[id].tx.inputs, depth), Reached(more, more[id].tx.inputs, depth));
    }
  }

  lemma {:induction false} Smaller<T>(a: set<T>, b: set<T>)
    requires a <= b
    ensures |a| <= |b|
    decreases b
  {
    if a != {} {
      var x :| x in a;
      Smaller(a - {x}, b - {x});
    }
  }

  // A new entry that nothing spends is nobody's ancestor.
  lemma {:induction false} ReachedBeforeNew(entries: Entries, id: Txid, e: Entry, inputs: seq<TxIn>, depth: nat)
    requires id !in entries && NoSpender(entries, id) && forall i :: i in inputs ==> i.txid != id
    ensures Reached(entries[id := e], inputs, depth) == Reached(entries, inputs, depth)
    decreases depth, inputs
  {
    if depth > 0 && inputs != [] {
      var p := inputs[0].txid;
      assert inputs[0] in inputs;
      if p in entries {
        ReachedBeforeNew(entries, id, e, entries[p].tx.inputs, depth - 1);
      }
      ReachedBeforeNew(entries, id, e, inputs[1..], depth);
    }
  }

  lemma {:induction false} ReachedIsCounted(entries: Entries, inputs: seq<TxIn>, depth: nat)
    requires AncestorsCounted(entries)
    ensures |Reached(entries, inputs, depth)| <= CountAncestors(entries, inputs)
    decreases inputs
  {
    if depth > 0 && inputs != [] {
      var p := inputs[0].txid;
      ReachedIsCounted(entries, inputs[1..], depth);
      var rest := Reached(entries, inputs[1..], depth);
      if p in entries {
        var above := Reached(entries, entries[p].tx.inputs, depth - 1);
        UnionSize({p} + above, rest);
        UnionSize({p}, above);
      }
    }
  }

  lemma UnionSize<T>(a: set<T>, b: set<T>)
    ensures |a + b| <= |a| + |b|
  {
    assert a + b == a + (b - a);
    Smaller(b - a, b);
  }

  // Adding a transaction before its spenders keeps the counts bounds.
  lemma AddingKeepsAncestorsCounted(entries: Entries, e: Entry)
    requires AncestorsCounted(entries) && e.tx.txid !in entries && NoSpender(entries, e.tx.txid)
    requires forall i :: i in e.tx.inputs ==> i.txid != e.tx.txid
    requires e.ancestorCount == CountAncestors(entries, e.tx.inputs)
    ensures AncestorsCounted(Added(entries, e))
  {
    var id := e.tx.txid;
    var after := entries[id := e];
    forall x, depth: nat | x in after ensures |Reached(after, after[x].tx.inputs, depth)| <= after[x].ancestorCount {
      ReachedBeforeNew(entries, id, e, after[x].tx.inputs, depth);
      if x == id {
        ReachedIsCounted(entries, e.tx.inputs, depth);
      }
    }
    CountChildKeeps(after, e.tx.inputs);
    RemovingKeepsAncestorsCounted(Added(entries, e), after);
  }

  // ---- Exactly when adding keeps the counts bounds ----

  // The count is not only a bound: at some distance all the counted ancestors are there.
  ghost predicate CountExact(entries: Entries, e: Entry) {
    exists depth: nat :: |Reached(entries, e.tx.inputs, depth)| == e.ancestorCount
  }

  lemma MoreThanCounted(entries: Entries, id: Txid, depth: nat)
    requires id in entries && |Reached(entries, entries[id].tx.inputs, depth)| > entries[id].ancestorCount
    ensures !AncestorsCounted(entries)
  {
    hide Reached;
  }

  // Looking further finds no fewer ancestors.
  lemma {:induction false} ReachedGrows(entries: Entries, inputs: seq<TxIn>, depth: nat)
    ensures Reached(entries, inputs, depth) <= Reached(entries, inputs, depth + 1)
    decreases depth, inputs
  {
    if depth > 0 && inputs != [] {
      var p := inputs[0].txid;
      if p in entries {
        ReachedGrows(entries, entries[p].tx.inputs, depth - 1);
      }
      ReachedGrows(entries, inputs[1..], depth);
    }
  }

  lemma {:induction false} ReachedArePooled(entries: Entries, inputs: seq<TxIn>, depth: nat)
    ensures Reached(entries, inputs, depth) <= entries.Keys
    decreases depth, inputs
  {
    if depth > 0 && inputs != [] {
      var p := inputs[0].txid;
      if p in entries {
        ReachedArePooled(entries, entries[p].tx.inputs, depth - 1);
      }
      ReachedArePooled(entries, inputs[1..], depth);
    }
  }

  lemma {:induction false} ParentReached(entries: Entries, inputs: seq<TxIn>, i: TxIn, depth: nat)
    requires i in inputs && i.txid in entries && depth > 0
    ensures i.txid in Reached(entries, inputs, depth)
    decreases inputs
  {
    if inputs[0] != i {
      ParentReached(entries, inputs[1..], i, depth);
    }
  }

  // A spender whose count was exact has one ancestor more than counted once its parent is added.
  lemma SpenderUndercounted(entries: Entries, e: Entry, spender: Txid, i: TxIn)
    requires e.tx.txid !in entries
    requires spender in entries && i in entries[spender].tx.inputs && i.txid == e.tx.txid
    requires CountExact(entries, entries[spender])
    ensures !AncestorsCounted(Added(entries, e))
  {
    hide Reached, AncestorsCounted, Added;
    var inputs, after := entries[spender].tx.inputs, Added(entries, e);
    AddedKeeps(entries, e);
    var depth: nat :| |Reached(entries, inputs, depth)| == entries[spender].ancestorCount;
    ReachedGrows(entries, inputs, depth);
    ReachedShrinks(entries, after, inputs, depth + 1);
    ReachedArePooled(entries, inputs, depth + 1);
    ParentReached(after, inputs, i, depth + 1);
    Smaller(Reached(entries, inputs, depth) + {e.tx.txid}, Reached(after, inputs, depth + 1));
    MoreThanCounted(after, spender, depth + 1);
  }

  lemma AddedKeeps(entries: Entries, e: Entry)
    requires e.tx.txid !in entries
    ensures Added(entries, e).Keys == entries.Keys + {e.tx.txid}
    ensures var own := Added(entries, e)[e.tx.txid]; own.tx == e.tx && own.ancestorCount == e.ancestorCount
    ensures forall id :: id in entries ==>
              Added(entries, e)[id].tx == entries[id].tx &&
                  Added(entries, e)[id].ancestorCount == entries[id].ancestorCount
  {
    CountChildKeeps(entries[e.tx.txid := e], e.tx.inputs);
  }

  // What spends the transaction already has an exact count.
  ghost predicate SpendersExact(entries: Entries, id: Txid) {
    forall spender :: spender in entries && (exists i :: i in entries[spender].tx.inputs && i.txid == id) ==>
      CountExact(entries, entries[spender])
  }

  // As far as the counts of its spenders are exact, adding a transaction keeps every count at least the
  // number of ancestors exactly when nothing in the pool spends it yet.
  lemma AddingKeepsAncestorsCountedExactlyWhen(entries: Entries, e: Entry)
    requires AncestorsCounted(entries) && SpendersExact(entries, e.tx.txid) && e.tx.txid !in entries
    requires forall i :: i in e.tx.inputs ==> i.txid != e.tx.txid
    requires e.ancestorCount == CountAncestors(entries, e.tx.inputs)
    ensures AncestorsCounted(Added(entries, e)) <==> NoSpender(entries, e.tx.txid)
  {
    hide AncestorsCounted, CountExact, Added;
    if NoSpender(entries, e.tx.txid) {
      AddingKeepsAncestorsCounted(entries, e);
    } else {
      var spender :| spender in entries && exists i :: i in entries[spender].tx.inputs && i.txid == e.tx.txid;
      var i :| i in entries[spender].tx.inputs && i.txid == e.tx.txid;
      SpenderUndercounted(entries, e, spender, i);
    }
  }

  // ---- What admission decides ----

  lemma {:induction false} CrowdedExactlyWhen(entries: Entries, inputs: seq<TxIn>, max: nat)
    ensures CrowdedParent(entries, inputs, max).None? <==>
              forall i :: i in inputs && i.txid in entries ==> entries[i.txid].descendantCount < max
  {
    if inputs != [] {
      CrowdedExactlyWhen(entries, inputs[1..], max);
      assert forall i :: i in inputs <==> i == inputs[0] || i in inputs[1..];
    }
  }

  // The values of the outputs spent, when all of them are known.
  ghost predicate Spent(entries: Entries, inputs: seq<TxIn>, values: seq<nat>) {
    |values| == |inputs| &&
    forall k :: 0 <= k < |inputs| ==>
      && inputs[k].txid in entries && inputs[k].vout < |entries[inputs[k].txid].tx.outputs|
      && values[k] == entries[inputs[k].txid].tx.outputs[inputs[k].vout]
  }

  lemma {:induction false} InputSumIs(entries: Entries, inputs: seq<TxIn>, values: seq<nat>)
    requires Spent(entries, inputs, values)
    ensures InputSum(entries, inputs) == Some(SumOutputs(values))
  {
    if inputs != [] {
      forall k | 0 <= k < |inputs| - 1 ensures values[1..][k] == values[k + 1] && inputs[1..][k] == inputs[k + 1] {
      }
      InputSumIs(entries, inputs[1..], values[1..]);
    }
  }

  lemma {:induction false} InputSumNone(entries: Entries, inputs: seq<TxIn>, k: nat)
    requires k < |inputs|
    requires !(inputs[k].txid in entries && inputs[k].vout < |entries[inputs[k].txid].tx.outputs|)
    ensures InputSum(entries, inputs).None?
  {
    if k > 0 {
      assert inputs[1..][k - 1] == inputs[k];
      InputSumNone(entries, inputs[1..], k - 1);
    }
  }

  // A fee of zero is made up for by what the inputs are worth beyond the outputs, when all of them spend
  // known outputs; otherwise it stays.
  lemma FeeIs(entries: Entries, tx: Tx, fee: nat, values: seq<nat>, k: nat)
    ensures fee > 0 ==> EffectiveFee(entries, tx, fee) == fee
    ensures fee == 0 && Spent(entries, tx.inputs, values) ==>
              EffectiveFee(entries, tx, 0) == Max(0, SumOutputs(values) - SumOutputs(tx.outputs))
    ensures k < |tx.inputs|
            && !(tx.inputs[k].txid in entries && tx.inputs[k].vout < |entries[tx.inputs[k].txid].tx.outputs|) ==>
              EffectiveFee(entries, tx, 0) == 0
  {
    if Spent(entries, tx.inputs, values) { InputSumIs(entries, tx.inputs, values); }
    if k < |tx.inputs|
       && !(tx.inputs[k].txid in entries && tx.inputs[k].vout < |entries[tx.inputs[k].txid].tx.outputs|) {
      InputSumNone(entries, tx.inputs, k);
    }
  }

  // A transaction is admitted exactly when it is new, passes the policy, pays at least the minimum rate
  // if it pays a known fee, fits in, and neither its ancestors nor the children of any parent exceed
  // their limits. It is filed with that fee, the rate it makes per virtual byte, and its ancestors.
  lemma AdmittedExactlyWhen(entries: Entries, totalBytes: nat, config: Config, policy: Tx -> bool, tx: Tx, fee: nat,
                            now: int)
    requires tx.vsize > 0
    ensures
      var r, effective := Admit(entries, totalBytes, config, policy, tx, fee, now), EffectiveFee(entries, tx, fee);
      && (r.Ok? <==>
            && tx.txid !in entries && policy(tx)
            && (effective > 0 ==> effective as real >= config.minFeeRate * tx.vsize as real)
            && totalBytes + tx.vsize <= config.maxBytes
            && CountAncestors(entries, tx.inputs) <= config.maxAncestors
            && forall i :: i in tx.inputs && i.txid in entries ==>
                 entries[i.txid].descendantCount < config.maxDescendants)
      && (r.Ok? ==>
            && r.value.tx == tx && r.value.fee == effective && r.value.addedAt == now
            && r.value.feeRate * tx.vsize as real == effective as real
            && r.value.ancestorCount == CountAncestors(entries, tx.inputs) && r.value.descendantCount == 0)
  {
    hide CountAncestors, CrowdedParent, EffectiveFee;
    CrowdedExactlyWhen(entries, tx.inputs, config.maxDescendants);
    RateExactlyWhen(tx, EffectiveFee(entries, tx, fee), config.minFeeRate);
  }

  lemma RateExactlyWhen(tx: Tx, fee: nat, rate: real)
    requires tx.vsize > 0
    ensures FeeRate(tx, fee) * tx.vsize as real == fee as real
    ensures FeeRate(tx, fee) >= rate <==> fee as real >= rate * tx.vsize as real
  {
    var r, v := FeeRate(tx, fee), tx.vsize as real;
    assert r * v == fee as real;
    Times(r, rate, v);
  }

  lemma Times(a: real, b: real, v: real)
    requires v > 0.0
    ensures a >= b <==> a * v >= b * v
  {
    if a >= b { assert (a - b) * v >= 0.0; } else { assert (b - a) * v > 0.0; }
  }

  // ---- What the counts count ----

  // The ways up from the inputs, from child to parent, of at most `depth` steps.
  ghost function Ways(entries: Entries, inputs: seq<TxIn>, depth: nat): nat
    decreases depth, inputs
  {
    if depth == 0 || inputs == [] then 0
    else
      var p := inputs[0].txid;
      (if p in entries then 1 + Ways(entries, entries[p].tx.inputs, depth - 1) else 0)
      + Ways(entries, inputs[1..], depth)
  }

  // Every count is the number of ways up, none of which is longer than `depth`.
  ghost predicate CountsWays(entries: Entries, depth: nat) {
    forall id, d: nat :: id in entries && d >= depth ==>
      Ways(entries, entries[id].tx.inputs, d) == entries[id].ancestorCount
  }

  lemma {:induction false} WaysAlike(a: Entries, b: Entries, inputs: seq<TxIn>, depth: nat)
    requires forall id :: id in a ==> id in b && a[id].tx == b[id].tx
    requires forall i :: i in inputs ==> (i.txid in a <==> i.txid in b)
    requires forall id, i :: id in a && i in a[id].tx.inputs ==> (i.txid in a <==> i.txid in b)
    ensures Ways(a, inputs, depth) == Ways(b, inputs, depth)
    decreases depth, inputs
  {
    if depth > 0 && inputs != [] {
      var p := inputs[0].txid;
      assert inputs[0] in inputs;
      if p in a { WaysAlike(a, b, a[p].tx.inputs, depth - 1); }
      WaysAlike(a, b, inputs[1..], depth);
    }
  }

  lemma {:induction false} WaysAreCounted(entries: Entries, inputs: seq<TxIn>, depth: nat, d: nat)
    requires CountsWays(entries, depth) && d > depth
    ensures Ways(entries, inputs, d) == CountAncestors(entries, inputs)
    decreases inputs
  {
    if inputs != [] { WaysAreCounted(entries, inputs[1..], depth, d); }
  }

  // Adding a transaction before its spenders keeps every count the number of ways up to an ancestor: one
  // that is reached in two ways is counted twice.
  lemma AddingCountsWays(entries: Entries, e: Entry, depth: nat)
    requires CountsWays(entries, depth) && e.tx.txid !in entries && NoSpender(entries, e.tx.txid)
    requires forall i :: i in e.tx.inputs ==> i.txid != e.tx.txid
    requires e.ancestorCount == CountAncestors(entries, e.tx.inputs)
    ensures CountsWays(Added(entries, e), depth + 1)
  {
    hide Added, CountAncestors;
    var after, id := Added(entries, e), e.tx.txid;
    AddedKeeps(entries, e);
    forall x, d: nat | x in after && d >= depth + 1
      ensures Ways(after, after[x].tx.inputs, d) == after[x].ancestorCount
    {
      WaysAlike(entries, after, after[x].tx.inputs, d);
      if x == id { WaysAreCounted(entries, e.tx.inputs, depth, d); }
    }
  }

  // ---- A parent that comes late ----

  const CHILD := Tx(2, [TxIn(1, 0)], [900], 100)
  const PARENT := Tx(1, [TxIn(7, 0)], [1000], 100)
  const LIMITS := Config(1000, 1.0, 25, 25)
  const FIRST := Entry(CHILD, 200, 2.0, 0, 0, 0)
  const SECOND := Entry(PARENT, 200, 2.0, 5, 0, 0)

  // Both are admitted, the child first: its count stays zero when its parent joins it.
  lemma LateParentIsNotCounted()
    ensures
      var policy := (tx: Tx) => tx.inputs != [];
      var one := Added(map[], FIRST);
      && Admit(map[], 0, LIMITS, policy, CHILD, 200, 0) == Ok(FIRST)
      && AncestorsCounted(one) && CountExact(one, one[2]) && TotalSize(one) == 100
      && Admit(one, 100, LIMITS, policy, PARENT, 200, 5) == Ok(SECOND)
      && !AncestorsCounted(Added(one, SECOND))
  {
    hide Reached, AncestorsCounted, CountExact, Added;
    var one := Added(map[], FIRST);
    AddedKeeps(map[], FIRST);
    BothAdmitted(one);
    assert one == map[2 := one[2]];
    ChildAlone(one);
    AddedSize(map[], FIRST);
    SpenderUndercounted(one, SECOND, 2, TxIn(1, 0));
  }

  lemma BothAdmitted(one: Entries)
    requires one.Keys == {2}
    ensures
      var policy := (tx: Tx) => tx.inputs != [];
      && Admit(map[], 0, LIMITS, policy, CHILD, 200, 0) == Ok(FIRST)
      && Admit(one, 100, LIMITS, policy, PARENT, 200, 5) == Ok(SECOND)
  {
    assert CHILD.inputs[1..] == [] && PARENT.inputs[1..] == [];
    assert CountAncestors(map[], []) == 0 && CountAncestors(one, []) == 0;
    assert CrowdedParent(map[], [], 25) == None && CrowdedParent(one, [], 25) == None;
    assert FeeRate(CHILD, 200) == 2.0 && FeeRate(PARENT, 200) == 2.0;
  }

  lemma ChildAlone(one: Entries)
    requires one.Keys == {2} && one[2].tx == CHILD && one[2].ancestorCount == 0
    ensures AncestorsCounted(one) && CountExact(one, one[2])
  {
    assert CHILD.inputs[1..] == [];
    forall depth: nat ensures Reached(one, CHILD.inputs, depth) == {} {
      assert Reached(one, CHILD.inputs[1..], depth) == {};
    }
    hide Reached;
    assert |Reached(one, CHILD.inputs, 0)| == 0;
  }
}
