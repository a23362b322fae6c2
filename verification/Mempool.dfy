// The mempool object: methods that update its entries and byte count in place.
module Mempools {
  import opened Common
  import opened MempoolState
  import opened FeeBuckets

  class Mempool {
    var entries: Entries
    var totalBytes: nat
    const config: Config
    // The checks on a transaction's structure, data carriers and weight.
    const policy: Tx -> bool

    // The byte count is the sum of the entries' sizes and within the limit.
    ghost predicate Valid()
      reads this
    {
      Accounted() && totalBytes <= config.maxBytes
    }

    // Entries are filed under their own ids, and the byte count is the sum of their sizes.
    ghost predicate Accounted()
      reads this
    {
      totalBytes == TotalSize(entries) && forall id :: id in entries ==> entries[id].tx.txid == id
    }

    // What the ancestor limit is for.
    ghost predicate AncestorsBounded()
      reads this
    {
      AncestorsCounted(entries) && forall id :: id in entries ==> entries[id].ancestorCount <= config.maxAncestors
    }

    constructor (c: Config, p: Tx -> bool)
      ensures config == c && policy == p && entries == map[]
      ensures Valid() && AncestorsBounded()
    {
      entries, totalBytes, config, policy := map[], 0, c, p;
    }

    // Adding admits a transaction or says why not. The ancestor bound is kept if nothing in the
    // pool spends the transaction yet.
    method Add(tx: Tx, fee: nat, now: int) returns (r: Result<Txid, MempoolError>)
      requires Valid()
      modifies this
      ensures Valid()
      ensures
        match Admit(old(entries), old(totalBytes), config, policy, tx, fee, now)
        case Err(e) => r == Err(e) && entries == old(entries)
        case Ok(e) => r == Ok(tx.txid) && entries == Added(old(entries), e)
      ensures old(AncestorsBounded()) && NoSpender(old(entries), tx.txid) && (forall i :: i in tx.inputs ==>
          i.txid != tx.txid) ==>
                AncestorsBounded()
    {
      hide AncestorsCounted, NoSpender, TotalSize, CountChild, CountAncestors, CrowdedParent;
      if tx.txid in entries { return Err(Duplicate(tx.txid)); }
      if !policy(tx) { return Err(Rejected); }
      var effective := EstimateFee(tx, fee);
      var rate := FeeRate(tx, effective);
      if fee > 0 || effective > 0 {
        if rate < config.minFeeRate { return Err(FeeTooLow(rate)); }
      }
      if totalBytes + tx.vsize > config.maxBytes { return Err(Full); }
      var ancestors := CountPooledAncestors(tx.inputs);
      if ancestors > config.maxAncestors { return Err(TooManyAncestors(ancestors)); }
      var crowded := FindCrowdedParent(tx.inputs);
      if crowded.Some? { return Err(TooManyDescendants(crowded.value)); }
      var entry := Entry(tx, effective, rate, now, ancestors, 0);
      ghost var before := entries;
      entries := entries[tx.txid := entry];
      totalBytes := totalBytes + tx.vsize;
      IncrementParents(tx.inputs);
      AddedSize(before, entry);
      CountChildKeeps(before[tx.txid := entry], tx.inputs);
      if AncestorsCounted(before) && NoSpender(before, tx.txid) && forall i :: i in tx.inputs ==> i.txid != tx.txid {
        AddingKeepsAncestorsCounted(before, entry);
      }
      return Ok(tx.txid);
    }

    method EstimateFee(tx: Tx, fee: nat) returns (effective: nat)
      ensures effective == EffectiveFee(entries, tx, fee)
    {
      if fee != 0 { return fee; }
      var sum, resolved := 0, true;
      var i := 0;
      assert tx.inputs[0..] == tx.inputs;
      while i < |tx.inputs|
        invariant i <= |tx.inputs|
        invariant InputSum(entries, tx.inputs) ==
                    if resolved && InputSum(entries, tx.inputs[i..]).Some? then
                      Some(sum + InputSum(entries, tx.inputs[i..]).value)
                    else None
      {
        assert tx.inputs[i..][0] == tx.inputs[i] && tx.inputs[i..][1..] == tx.inputs[i + 1..];
        var input := tx.inputs[i];
        if input.txid in entries && input.vout < |entries[input.txid].tx.outputs| {
          sum := sum + entries[input.txid].tx.outputs[input.vout];
        } else {
          resolved := false;
        }
        i := i + 1;
      }
      var spent := SumOutputs(tx.outputs);
      if resolved && sum > 0 { return if sum > spent then sum - spent else 0; }
      return fee;
    }

    method CountPooledAncestors(inputs: seq<TxIn>) returns (count: nat)
      ensures count == CountAncestors(entries, inputs)
    {
      count := 0;
      var i := 0;
      assert inputs[0..] == inputs;
      while i < |inputs|
        invariant i <= |inputs|
        invariant count + CountAncestors(entries, inputs[i..]) == CountAncestors(entries, inputs)
      {
        assert inputs[i..][0] == inputs[i] && inputs[i..][1..] == inputs[i + 1..];
        if inputs[i].txid in entries {
          count := count + 1;
          count := count + entries[inputs[i].txid].ancestorCount;
        }
        i := i + 1;
      }
    }

    method FindCrowdedParent(inputs: seq<TxIn>) returns (crowded: Option<nat>)
      ensures crowded == CrowdedParent(entries, inputs, config.maxDescendants)
    {
      var i := 0;
      assert inputs[0..] == inputs;
      while i < |inputs|
        invariant i <= |inputs|
        invariant CrowdedParent(entries, inputs[i..], config.maxDescendants)
            == CrowdedParent(entries, inputs, config.maxDescendants)
      {
        assert inputs[i..][0] == inputs[i] && inputs[i..][1..] == inputs[i + 1..];
        if inputs[i].txid in entries {
          var parent := entries[inputs[i].txid];
          if parent.descendantCount >= config.maxDescendants { return Some(parent.descendantCount + 1); }
        }
        i := i + 1;
      }
      return None;
    }

    method IncrementParents(inputs: seq<TxIn>)
      modifies this`entries
      ensures entries == CountChild(old(entries), inputs)
    {
      var i := 0;
      assert inputs[0..] == inputs;
      while i < |inputs|
        invariant i <= |inputs|
        invariant CountChild(entries, inputs[i..]) == CountChild(old(entries), inputs)
      {
        assert inputs[i..][0] == inputs[i] && inputs[i..][1..] == inputs[i + 1..];
        var p := inputs[i].txid;
        if p in entries {
          entries := entries[p := entries[p].(descendantCount := entries[p].descendantCount + 1)];
        }
        i := i + 1;
      }
    }

    // Removing takes the entry out and gives its bytes back; the subtraction cannot underflow.
    method Remove(txid: Txid) returns (removed: Option<Entry>)
      requires Accounted()
      modifies this
      ensures Accounted() && totalBytes == old(totalBytes) - (if removed.Some? then removed.value.Size() else 0)
      ensures entries == old(entries) - {txid}
      ensures removed == if txid in old(entries) then Some(old(entries)[txid]) else None
      ensures old(AncestorsBounded()) ==> AncestorsBounded()
    {
      if txid !in entries {
        assert entries == entries - {txid};
        return None;
      }
      TotalSizeRemove(entries, txid);
      removed := Some(entries[txid]);
      ghost var before := entries;
      entries := entries - {txid};
      totalBytes := totalBytes - removed.value.Size();
      if AncestorsCounted(before) { RemovingKeepsAncestorsCounted(entries, before); }
    }

    method RemoveForBlock(txids: seq<Txid>) returns (count: nat)
      requires Accounted()
      modifies this
      ensures Accounted() && totalBytes <= old(totalBytes)
      ensures entries == old(entries) - Members(txids)
      ensures count == |old(entries).Keys| - |entries.Keys|
      ensures old(AncestorsBounded()) ==> AncestorsBounded()
    {
      hide Accounted, AncestorsBounded, Members;
      count := 0;
      var i := 0;
      NoMembers();
      while i < |txids|
        invariant i <= |txids| && Accounted() && totalBytes <= old(totalBytes)
        invariant entries == old(entries) - Members(txids[..i])
        invariant count == |old(entries).Keys| - |entries.Keys|
        invariant old(AncestorsBounded()) ==> AncestorsBounded()
      {
        OneMoreMember(entries, old(entries), txids, i);
        OneFewer(entries, txids[i]);
        var removed := Remove(txids[i]);
        if removed.Some? { count := count + 1; }
        i := i + 1;
      }
      assert txids[..i] == txids;
    }

    // The entries, highest fee rate first. Entries of one rate may come in any order.
    method GetSortedByFeeRate() returns (sorted: seq<Entry>)
      requires forall id :: id in entries ==> entries[id].tx.txid == id
      ensures Lists(sorted, entries) && Descending(sorted)
    {
      hide Lists, Descending;
      sorted := [];
      var todo := entries.Keys;
      NothingListed(entries);
      while todo != {}
        invariant todo <= entries.Keys && Lists(sorted, entries - todo) && Descending(sorted)
        invariant forall i, id :: 0 <= i < |sorted| && id in todo ==> sorted[i].feeRate >= entries[id].feeRate
        decreases todo
      {
        var best := Dearest(entries, todo);
        ListedPush(entries, todo, sorted, best);
        sorted := sorted + [entries[best]];
        todo := todo - {best};
      }
      assert entries - todo == entries;
    }

    // Evict from the cheap end of the sorted entries until the pool fits: what goes is the shortest
    // tail that makes it fit.
    method Trim() returns (ghost sorted: seq<Entry>, ghost kept: nat)
      requires Accounted()
      modifies this
      ensures Valid() && totalBytes <= old(totalBytes)
      ensures old(totalBytes) <= config.maxBytes ==> entries == old(entries)
      ensures old(totalBytes) > config.maxBytes ==>
                && Lists(sorted, old(entries)) && Descending(sorted) && kept < |sorted|
                && entries == Restrict(old(entries), sorted[..kept])
                && totalBytes + sorted[kept].Size() > config.maxBytes
      ensures old(AncestorsBounded()) ==> AncestorsBounded()
    {
      hide AncestorsBounded, Lists, Descending, Restrict;
      sorted, kept := [], 0;
      if totalBytes <= config.maxBytes { return; }
      var list := GetSortedByFeeRate();
      sorted, kept := list, |list|;
      AllKept(entries, sorted);
      while totalBytes > config.maxBytes && list != []
        invariant Accounted() && totalBytes <= old(totalBytes)
        invariant kept == |list| <= |sorted| && list == sorted[..kept]
        invariant entries == Restrict(old(entries), sorted[..kept])
        invariant if kept < |sorted| then totalBytes
            + sorted[kept].Size() > config.maxBytes else totalBytes > config.maxBytes
        invariant old(AncestorsBounded()) ==> AncestorsBounded()
        decreases |list|
      {
        var entry := list[|list| - 1];
        list := list[..|list| - 1];
        DropLast(old(entries), sorted, kept);
        var removed := Remove(entry.tx.txid);
        kept := kept - 1;
      }
      if list == [] { NothingKept(old(entries), sorted); }
    }

    // Drop what has been in the pool for longer than `maxAge`.
    method Expire(now: int, maxAge: int) returns (ghost expired: set<Txid>)
      requires Accounted()
      modifies this
      ensures Accounted() && totalBytes <= old(totalBytes)
      ensures expired == set id | id in old(entries) && now - old(entries)[id].addedAt > maxAge
      ensures entries == old(entries) - expired
      ensures old(AncestorsBounded()) ==> AncestorsBounded()
    {
      hide Accounted, AncestorsBounded;
      var todo := set id | id in entries && now - entries[id].addedAt > maxAge;
      expired := todo;
      while todo != {}
        invariant todo <= expired && Accounted() && totalBytes <= old(totalBytes)
        invariant entries == old(entries) - (expired - todo)
        invariant old(AncestorsBounded()) ==> AncestorsBounded()
        decreases todo
      {
        var id :| id in todo;
        todo := todo - {id};
        var removed := Remove(id);
      }
      assert expired - todo == expired;
    }

    // Count each entry in the first bucket it reaches, and leave out empty buckets.
    method FeeHistogram() returns (histogram: Histogram)
      ensures histogram == HistogramOf(entries)
    {
      hide InBucket;
      var buckets := seq(|BOUNDARIES|, b requires 0 <= b < |BOUNDARIES| => (BOUNDARIES[b], 0));
      var todo := entries.Keys;
      NothingCounted(entries);
      assert entries.Keys - todo == {};
      while todo != {}
        invariant todo <= entries.Keys
        invariant buckets == Buckets(entries, entries.Keys - todo)
        decreases todo
      {
        var id :| id in todo;
        buckets := CountEntry(entries, entries.Keys - todo, id, buckets);
        assert entries.Keys - (todo - {id}) == entries.Keys - todo + {id};
        todo := todo - {id};
      }
      assert entries.Keys - todo == entries.Keys;
      histogram := RetainCounted(buckets);
    }
  }

  // ---- Listing entries ----

  function Members(ids: seq<Txid>): set<Txid> {
    if ids == [] then {} else Members(ids[..|ids| - 1]) + {ids[|ids| - 1]}
  }

  lemma NoMembers()
    ensures Members([]) == {}
  {
  }

  lemma OneMoreMember(entries: Entries, all: Entries, ids: seq<Txid>, i: nat)
    requires i < |ids| && entries == all - Members(ids[..i])
    ensures entries - {ids[i]} == all - Members(ids[..i + 1])
  {
    hide Members;
    MembersPush(ids[..i + 1]);
    assert ids[..i + 1][..i] == ids[..i];
  }

  lemma MembersPush(ids: seq<Txid>)
    requires ids != []
    ensures Members(ids) == Members(ids[..|ids| - 1]) + {ids[|ids| - 1]}
  {
  }

  lemma OneFewer(entries: Entries, id: Txid)
    ensures |(entries - {id}).Keys| == |entries.Keys| - (if id in entries then 1 else 0)
  {
    assert (entries - {id}).Keys == entries.Keys - {id};
  }

  // The sequence holds every entry once.
  ghost predicate Lists(sorted: seq<Entry>, entries: Entries) {
    && (forall i :: 0 <= i < |sorted| ==> sorted[i].tx.txid in entries && entries[sorted[i].tx.txid] == sorted[i])
    && (forall id :: id in entries ==> entries[id] in sorted)
    && (forall i, j :: 0 <= i < j < |sorted| ==> sorted[i].tx.txid != sorted[j].tx.txid)
  }

  ghost predicate Descending(sorted: seq<Entry>) {
    forall i, j :: 0 <= i < j < |sorted| ==> sorted[i].feeRate >= sorted[j].feeRate
  }

  lemma NothingListed(entries: Entries)
    ensures Lists([], entries - entries.Keys) && Descending([])
  {
  }

  lemma ListedPush(entries: Entries, todo: set<Txid>, sorted: seq<Entry>, best: Txid)
    requires todo <= entries.Keys && best in todo && entries[best].tx.txid == best
    requires Lists(sorted, entries - todo) && Descending(sorted)
    requires forall i :: 0 <= i < |sorted| ==> sorted[i].feeRate >= entries[best].feeRate
    ensures Lists(sorted + [entries[best]], entries - (todo - {best})) && Descending(sorted + [entries[best]])
  {
    var more, after := sorted + [entries[best]], entries - (todo - {best});
    assert more[|sorted|] == entries[best];
    forall id | id in after ensures after[id] in more {
      if id != best { assert (entries - todo)[id] in sorted; }
    }
  }

  lemma NothingKept(entries: Entries, sorted: seq<Entry>)
    ensures Restrict(entries, sorted[..0]) == map[] && TotalSize(map[]) == 0
  {
  }

  function Restrict(entries: Entries, kept: seq<Entry>): Entries {
    map id | id in entries && entries[id] in kept :: entries[id]
  }

  lemma AllKept(entries: Entries, sorted: seq<Entry>)
    requires Lists(sorted, entries)
    ensures Restrict(entries, sorted[..|sorted|]) == entries
  {
    assert sorted[..|sorted|] == sorted;
  }

  lemma DropLast(entries: Entries, sorted: seq<Entry>, kept: nat)
    requires Lists(sorted, entries) && 0 < kept <= |sorted|
    requires forall id :: id in entries ==> entries[id].tx.txid == id
    ensures var id := sorted[kept - 1].tx.txid;
            && id in Restrict(entries, sorted[..kept])
            && Restrict(entries, sorted[..kept])[id] == sorted[kept - 1]
            && Restrict(entries, sorted[..kept]) - {id} == Restrict(entries, sorted[..kept - 1])
  {
    var last, id := sorted[kept - 1], sorted[kept - 1].tx.txid;
    var with, without := Restrict(entries, sorted[..kept]), Restrict(entries, sorted[..kept - 1]);
    assert sorted[..kept][kept - 1] == last;
    NotInFront(sorted, kept - 1, entries);
    hide Lists;
    forall x ensures x in without <==> x in with && x != id {
      InFront(entries, sorted, kept, x);
    }
  }

  lemma NotInFront(sorted: seq<Entry>, i: nat, entries: Entries)
    requires Lists(sorted, entries) && i < |sorted|
    ensures sorted[i] !in sorted[..i]
  {
  }

  // One more entry in front is one more id.
  lemma InFront(entries: Entries, sorted: seq<Entry>, kept: nat, x: Txid)
    requires Lists(sorted, entries) && 0 < kept <= |sorted|
    requires forall id :: id in entries ==> entries[id].tx.txid == id
    ensures var last := sorted[kept - 1];
            x in entries ==>
              (entries[x] in sorted[..kept] <==> entries[x] in sorted[..kept - 1] || x == last.tx.txid)
  {
    assert sorted[..kept] == sorted[..kept - 1] + [sorted[kept - 1]];
  }

  // ---- Counting entries ----

  lemma NothingCounted(entries: Entries)
    ensures Buckets(entries, {}) == seq(|BOUNDARIES|, b requires 0 <= b < |BOUNDARIES| => (BOUNDARIES[b], 0))
  {
    forall b | 0 <= b < |BOUNDARIES| ensures InBucket(entries, {}, b) == {} {
    }
  }

  // Add one entry to the first bucket it reaches.
  method CountEntry(entries: Entries, ghost counted: set<Txid>, id: Txid, buckets: Histogram) returns (more: Histogram)
    requires id in entries && counted <= entries.Keys && id !in counted
    requires buckets == Buckets(entries, counted)
    ensures more == Buckets(entries, counted + {id})
  {
    hide InBucket;
    var rate := entries[id].feeRate;
    more := buckets;
    forall b ensures |InBucket(entries, counted + {id}, b)| ==
                     |InBucket(entries, counted, b)| + (if BucketOf(rate, 0) == b then 1 else 0) {
      CountOne(entries, counted, id, b);
    }
    var i := 0;
    while i < |buckets|
      invariant i <= |buckets| && more == buckets
      invariant BucketOf(rate, i) == BucketOf(rate, 0)
    {
      if rate >= buckets[i].0 {
        more := buckets[i := (buckets[i].0, buckets[i].1 + 1)];
        return;
      }
      i := i + 1;
    }
  }

  method RetainCounted(buckets: Histogram) returns (kept: Histogram)
    ensures kept == NonEmpty(buckets)
  {
    kept := [];
    var i := 0;
    assert buckets[0..] == buckets;
    while i < |buckets|
      invariant i <= |buckets|
      invariant kept + NonEmpty(buckets[i..]) == NonEmpty(buckets)
    {
      assert buckets[i..][0] == buckets[i] && buckets[i..][1..] == buckets[i + 1..];
      ghost var rest := NonEmpty(buckets[i + 1..]);
      if buckets[i].1 > 0 {
        assert kept + ([buckets[i]] + rest) == (kept + [buckets[i]]) + rest;
        kept := kept + [buckets[i]];
      } else {
        assert [] + rest == rest;
      }
      i := i + 1;
    }
    assert kept + [] == kept;
  }

  // An entry of the highest fee rate.
  method Dearest(entries: Entries, todo: set<Txid>) returns (best: Txid)
    requires todo != {} && todo <= entries.Keys
    ensures best in todo && forall id :: id in todo ==> entries[id].feeRate <= entries[best].feeRate
  {
    best :| best in todo;
    var left := todo;
    while left != {}
      invariant left <= todo && best in todo
      invariant forall id :: id in todo && id !in left ==> entries[id].feeRate <= entries[best].feeRate
      decreases left
    {
      var id :| id in left;
      left := left - {id};
      if entries[id].feeRate > entries[best].feeRate { best := id; }
    }
  }
}
