// The header side of the sync engine: following headers, rewinding, restarting, building locators.
module SyncEngines {
  import opened Common
  import opened HeaderTables
  import opened HeaderStore
  import opened ChainSync

  type PeerId = nat

  class SyncEngine {
    const store: NodeStore
    var tipHeight: nat
    var tipHash: Hash
    var validatedHeight: nat
    var syncPeer: Option<PeerId>
    var lastReorgHeight: Option<nat>

    // The store is fit for a restart, and holds a linked chain that ends in our tip.
    ghost predicate Valid()
      reads this, store
    {
      && StoreValid(store.View(), store.syncHeight)
      && Linked(store.heightToHash, tipHeight)
      && tipHash == Top(Chain())
    }

    ghost function Chain(): seq<Hash>
      reads this, store
      requires Linked(store.heightToHash, tipHeight)
    {
      ChainOf(store.heightToHash, tipHeight)
    }

    predicate GenesisFiled()
      reads store
    {
      0 in store.heightToHash
    }

    // Restarting takes the recorded height as the tip.
    constructor (s: NodeStore)
      ensures store == s
      ensures tipHeight == match s.syncHeight case None => 0 case Some(h) => h
      ensures StoreValid(s.View(), s.syncHeight) ==> Valid()
    {
      store := s;
      var height: Height := match s.syncHeight case None => 0 case Some(h) => h;
      tipHeight := height;
      if height > 0 {
        var found := GetByHeight(s.View(), height);
        tipHash := if found.Ok? && found.value.Some? then found.value.value.hash else GENESIS;
      } else {
        tipHash := GENESIS;
      }
      validatedHeight, syncPeer, lastReorgHeight := 0, None, None;
    }

    // Look back from the tip for the header that `prev` names.
    method FindForkPoint(prev: Hash) returns (r: Option<nat>)
      requires Valid()
      ensures r == ForkPoint(Chain(), GenesisFiled(), prev)
    {
      hide Linked, StoreValid;
      ghost var chain, filed := Chain(), GenesisFiled();
      var height := tipHeight;
      while true
        invariant 0 <= height <= tipHeight
        invariant ScanBack(chain, filed, prev, height) == ForkPoint(chain, filed, prev)
        decreases height
      {
        LookupIsFiled(store.View(), store.syncHeight, tipHeight, height);
        var stored := GetByHeight(store.View(), height);
        if stored.Ok? && stored.value.Some? {
          if stored.value.value.hash == prev { return Some(height); }
        }
        if tipHeight - height > FORK_DEPTH || height == 0 { return None; }
        height := height - 1;
      }
    }

    // Rewind the store and the tip to where a header forks off, if that is found.
    method RewindToFork(prev: Hash, works: bool) returns (ok: bool)
      requires Valid()
      modifies this, store
      ensures Valid() && GenesisFiled() == old(GenesisFiled())
      ensures SameAbove(old(store.heightToHash), store.heightToHash, old(tipHeight)) && tipHeight <= old(tipHeight)
      ensures ok <==> works && ForkPoint(old(Chain()), old(GenesisFiled()), prev).Some?
      ensures !ok ==> Chain() == old(Chain())
      ensures !ok ==> validatedHeight == old(validatedHeight) && lastReorgHeight == old(lastReorgHeight)
      ensures !ok ==> syncPeer == None
      ensures ok ==>
                var f := ForkPoint(old(Chain()), old(GenesisFiled()), prev).value;
                && f <= |old(Chain())| && Chain() == old(Chain())[..f] && tipHash == prev
                && validatedHeight == Min(old(validatedHeight), f) && lastReorgHeight == Some(f)
      ensures ok ==> syncPeer == old(syncPeer)
    {
      hide StoreValid, LinkedChain, ForkPoint, Reorganized;
      ghost var chain := Chain();
      var fork := FindForkPoint(prev);
      if fork.None? {
        syncPeer := None;
        return false;
      }
      RewindIs(store.View(), store.syncHeight, tipHeight, fork.value, prev);
      var result := store.Reorganize(tipHeight, fork.value, [], works);
      if result.Err? {
        syncPeer := None;
        return false;
      }
      tipHeight := fork.value;
      tipHash := prev;
      if validatedHeight > tipHeight { validatedHeight := tipHeight; }
      lastReorgHeight := Some(fork.value);
      return true;
    }

    // Where a walk over headers stands: the stored chain, and what is checked on top of it.
    ghost predicate Mirrors(w: Walk, checked: seq<(Header, Height)>, prevHash: Hash)
      reads this, store
    {
      && Valid() && w.ok && w.chain == Chain() && w.batch == Hashes(checked)
      && Consecutive(checked, tipHeight + 1)
      && LinkedChain(w.chain + w.batch) && prevHash == Top(w.chain + w.batch)
      && (w.fork.Some? ==> w.fork.value == tipHeight)
    }

    lemma MirrorsStart()
      requires Valid()
      ensures Mirrors(Start(Chain()), [], tipHash) && Chain() + [] == Chain()
    {
      StartsLinked(store.heightToHash, tipHeight);
      NothingChecked(tipHeight + 1);
    }

    // The heights other parts are told about follow the last fork.
    ghost predicate Settled(w: Walk, validated: nat, reorg: Option<nat>)
      reads this
    {
      match w.fork
      case None => validatedHeight == validated && lastReorgHeight == reorg
      case Some(f) => validatedHeight == Min(validated, f) && lastReorgHeight == Some(f)
    }

    // A header that does not link on rewinds the stored chain, and what was checked is dropped.
    method LinkOrRewind(header: Header, works: Header -> bool, given: seq<(Header, Height)>, prevHash: Hash,
                        ghost w: Walk, ghost validated: nat, ghost reorg: Option<nat>)
      returns (ok: bool, checked: seq<(Header, Height)>)
      requires Mirrors(w, given, prevHash) && Settled(w, validated, reorg)
      modifies this, store
      ensures var r := Rewound(w, old(GenesisFiled()), header, works);
              && Valid() && Chain() == r.chain && ok == r.ok && Settled(r, validated, reorg)
              && (ok ==> Mirrors(r, checked, header.prev) && syncPeer == old(syncPeer)) && (!ok ==> syncPeer == None)
      ensures GenesisFiled() == old(GenesisFiled())
      ensures SameAbove(old(store.heightToHash), store.heightToHash, old(tipHeight)) && tipHeight <= old(tipHeight)
      ensures ok ==> tipHeight + |checked| <= old(tipHeight) + |given|
    {
      hide StoreValid, LinkedChain, ForkPoint, Linked;
      RewoundLinks(w, GenesisFiled(), header, works);
      ok, checked := true, given;
      if header.prev != prevHash {
        ok := RewindToFork(header.prev, works(header));
        checked := [];
      }
    }

    // One more header is checked.
    lemma MirrorsPush(w: Walk, checked: seq<(Header, Height)>, header: Header)
      requires Mirrors(w, checked, header.prev) && tipHeight + 1 + |checked| < U32
      ensures Mirrors(w.(batch := w.batch + [header.BlockHash()]),
                      checked + [(header, tipHeight + 1 + |checked|)], header.BlockHash())
    {
      hide StoreValid, LinkedChain, Linked, Hashes, Consecutive;
      BatchPush(Chain(), checked, header, tipHeight + 1);
    }

    // Check one header: that it links on, or forks off, and its proof of work.
    method CheckHeader(header: Header, pow: Header -> bool, works: Header -> bool, given: seq<(Header, Height)>,
                       givenHash: Hash,
                       ghost w: Walk, ghost validated: nat, ghost reorg: Option<nat>)
      returns (ok: bool, checked: seq<(Header, Height)>, prevHash: Hash)
      requires Mirrors(w, given, givenHash) && Settled(w, validated, reorg)
      requires tipHeight + 1 + |given| < U32
      modifies this, store
      ensures var r := Checked(w, old(GenesisFiled()), header, pow, works);
              && Valid() && Chain() == r.chain && ok == r.ok && Settled(r, validated, reorg)
              && (ok ==> Mirrors(r, checked, prevHash) && syncPeer == old(syncPeer)) && (!ok ==> syncPeer == None)
      ensures GenesisFiled() == old(GenesisFiled())
      ensures SameAbove(old(store.heightToHash), store.heightToHash, old(tipHeight)) && tipHeight <= old(tipHeight)
      ensures ok ==> checked != [] && tipHeight + |checked| <= old(tipHeight) + |given| + 1
    {
      hide StoreValid, LinkedChain, ForkPoint, Linked, Rewound, Mirrors, SameAbove;
      prevHash := header.BlockHash();
      ok, checked := LinkOrRewind(header, works, given, givenHash, w, validated, reorg);
      if !ok { return; }
      if !pow(header) {
        syncPeer := None;
        return false, checked, prevHash;
      }
      MirrorsPush(Rewound(w, old(GenesisFiled()), header, works), checked, header);
      checked := checked + [(header, tipHeight + 1 + |checked|)];
    }

    // Store what was checked, and make its end the tip.
    method StoreChecked(checked: seq<(Header, Height)>, prevHash: Hash, stores: bool, ghost w: Walk)
      requires Mirrors(w, checked, prevHash) && checked != [] && tipHeight + |checked| < U32
      modifies store, this`tipHeight, this`tipHash
      ensures Valid() && Chain() == Followed(w, stores)
      ensures SameAbove(old(store.heightToHash), store.heightToHash, tipHeight)
      ensures stores ==> store.syncHeight == Some(tipHeight) && store.syncHash == Some(tipHash)
    {
      hide StoreValid, LinkedChain, InsertAll;
      StoredIsValid(store.View(), store.syncHeight, tipHeight, checked);
      LastHash(Chain(), checked);
      assert checked[|checked| - 1].1 == tipHeight + |checked|;
      var ok := store.InsertHeadersBatch(checked, stores);
      if !ok { return; }
      tipHeight := tipHeight + |checked|;
      tipHash := prevHash;
    }

    // A message of headers: check them one by one, then store them all at once. `pow` is the
    // proof-of-work check; `works` and `stores` say whether the database accepts each write.
    method HandleHeaders(headers: seq<Header>, pow: Header -> bool, works: Header -> bool, stores: bool)
      requires Valid() && tipHeight + |headers| < U32
      modifies this, store
      ensures Valid()
      ensures
        var w := Follow(Start(old(Chain())), old(GenesisFiled()), headers, pow, works);
        && Chain() == Followed(w, stores) && Settled(w, old(validatedHeight), old(lastReorgHeight))
        && (!w.ok ==> syncPeer == None) && (w.ok ==> syncPeer == old(syncPeer))
        && (w.ok && stores && headers != [] ==> store.syncHeight == Some(tipHeight) && store.syncHash == Some(tipHash))
      ensures SameAbove(old(store.heightToHash), store.heightToHash, Max(old(tipHeight), tipHeight))
    {
      hide StoreValid, Chain, LinkedChain, Linked, Checked, Hashes, Consecutive, InsertAll, Rewound, SameAbove, Filled;
      SameAboveItself(store.heightToHash, tipHeight);
      MirrorsStart();
      ghost var w := Start(Chain());
      ghost var whole := Follow(w, GenesisFiled(), headers, pow, works);
      ghost var validated, reorg := validatedHeight, lastReorgHeight;
      if headers == [] { return; }
      var checked: seq<(Header, Height)>, prevHash := [], tipHash;
      var i := 0;
      assert headers[0..] == headers;
      while i < |headers|
        invariant i <= |headers| && tipHeight + |checked| + |headers| - i < U32 && (i > 0 ==> checked != [])
        invariant Mirrors(w, checked, prevHash) && Settled(w, validated, reorg)
        invariant GenesisFiled() == old(GenesisFiled()) && syncPeer == old(syncPeer)
        invariant SameAbove(old(store.heightToHash), store.heightToHash, old(tipHeight)) && tipHeight <= old(tipHeight)
        invariant Follow(w, GenesisFiled(), headers[i..], pow, works) == whole
      {
        assert headers[i..][0] == headers[i] && headers[i..][1..] == headers[i + 1..];
        ghost var r := Checked(w, GenesisFiled(), headers[i], pow, works);
        var ok;
        ghost var before := store.heightToHash;
        ghost var below := tipHeight;
        ok, checked, prevHash := CheckHeader(headers[i], pow, works, checked, prevHash, w, validated, reorg);
        SameAboveTwice(old(store.heightToHash), before, store.heightToHash, old(tipHeight), below);
        if !ok { return; }
        w := r;
        i := i + 1;
      }
      ghost var before := store.heightToHash;
      StoreChecked(checked, prevHash, stores, w);
      SameAboveTwice(old(store.heightToHash), before, store.heightToHash, old(tipHeight), tipHeight);
    }

    // After a block was rejected: move the tip to the highest block that the validating kernel and
    // the store agree on. The store itself is left as it is.
    method RewindToKernel(kernel: Height -> Option<Hash>, kernelHeight: Height)
      requires Valid()
      modifies this
      ensures var common := CommonHeight(store.View(), kernel, kernelHeight, kernelHeight);
              && validatedHeight == common && lastReorgHeight == Some(common)
              && tipHeight == (if common in store.heightToHash then common else old(tipHeight))
              && (Valid() <==> common !in store.heightToHash || Linked(store.heightToHash, common))
              && (common <= old(tipHeight) || (store.syncHeight.Some? && common <= store.syncHeight.value) ==> Valid())
    {
      hide LinkedChain, IsAt;
      var common := FindCommonHeight(kernel, kernelHeight);
      validatedHeight := common;
      lastReorgHeight := Some(common);
      LookupsAgree(store.View(), common);
      var stored := GetByHeight(store.View(), common);
      if stored.Ok? && stored.value.Some? {
        tipHeight := common;
        tipHash := stored.value.value.hash;
        FiledIsTop(store.View(), store.syncHeight, common);
      }
      LinkedUpTo(store.heightToHash, old(tipHeight), common);
      if store.syncHeight.Some? { LinkedUpTo(store.heightToHash, store.syncHeight.value, common); }
    }

    method FindCommonHeight(kernel: Height -> Option<Hash>, start: Height) returns (r: Height)
      ensures r == CommonHeight(store.View(), kernel, start, start)
    {
      var h: Height := start;
      while true
        invariant h <= start
        invariant CommonHeight(store.View(), kernel, start, h) == CommonHeight(store.View(), kernel, start, start)
        decreases h
      {
        var filed := GetByHeight(store.View(), h);
        if filed.Ok? && filed.value.Some? && kernel(h) == Some(filed.value.value.hash) { return h; }
        if start - h > KERNEL_DEPTH || h == 0 { return 0; }
        h := h - 1;
      }
    }

    // The hashes a peer needs to find where its chain leaves ours. Heights without a header are passed
    // over; where there are none the heights are those of `LocatorHeights`.
    method BuildLocator() returns (locator: seq<Hash>)
      requires tipHeight < U32
      ensures locator == EndedByGenesis(Walked(store.View(), tipHeight, 0, 1))
      ensures Valid() ==> locator == HashesAt(Chain(), LocatorHeights(tipHeight, 0, 1))
    {
      hide Valid, GetByHeight, LocatorHeights, Walked;
      locator := [];
      var height, step: nat := tipHeight, 1;
      ghost var t := store.View();
      ghost var whole := Walked(t, tipHeight, 0, 1);
      assert [] + whole == whole;
      while true
        invariant 0 <= height <= tipHeight && step >= 1
        invariant locator + Walked(t, height, |locator|, step) == whole
        decreases height
      {
        WalkedUnfolds(t, height, locator, step);
        var stored := GetByHeight(store.View(), height);
        if stored.Ok? && stored.value.Some? { locator := locator + [stored.value.value.hash]; }
        if height == 0 { break; }
        if |locator| >= 10 { step := step * 2; }
        height := if height < step then 0 else height - step;
      }
      assert locator == whole;
      if locator == [] || locator[|locator| - 1] != GENESIS { locator := locator + [GENESIS]; }
      if Valid() { WalkedIsLocator(); }
    }

    lemma WalkedIsLocator()
      requires Valid()
      ensures tipHeight < U32
      ensures EndedByGenesis(Walked(store.View(), tipHeight, 0, 1))
          == HashesAt(Chain(), LocatorHeights(tipHeight, 0, 1))
    {
      WalkedOnChain(store.View(), store.syncHeight, tipHeight);
    }
  }

  // ---- Agreeing with the validating kernel ----

  // How far below its own tip the kernel is compared with the store.
  const KERNEL_DEPTH: nat := 1000

  function CommonHeight(t: Tables, kernel: Height -> Option<Hash>, start: Height, h: Height): Height
    requires h <= start
    decreases h
  {
    var filed := GetByHeight(t, h);
    if filed.Ok? && filed.value.Some? && kernel(h) == Some(filed.value.value.hash) then h
    else if start - h > KERNEL_DEPTH || h == 0 then 0
    else CommonHeight(t, kernel, start, h - 1)
  }

  ghost predicate Agree(t: Tables, kernel: Height -> Option<Hash>, h: Height) {
    h in t.heightToHash && kernel(h) == Some(t.heightToHash[h])
  }

  // The common height is the highest one that both agree on, among the last 1001 below the kernel's
  // tip; zero if there is none.
  lemma {:induction false} CommonHeightIsHighest(t: Tables, kernel: Height -> Option<Hash>, start: Height, h: Height)
    requires Consistent(t) && h <= start <= h + KERNEL_DEPTH + 1
    ensures var c := CommonHeight(t, kernel, start, h);
            && c <= h && (c == 0 || Agree(t, kernel, c))
            && forall k: Height :: c < k <= h && start <= k + KERNEL_DEPTH + 1 ==> !Agree(t, kernel, k)
    decreases h
  {
    LookupsAgree(t, h);
    if !Agree(t, kernel, h) && start - h <= KERNEL_DEPTH && h > 0 {
      CommonHeightIsHighest(t, kernel, start, h - 1);
    }
  }

  lemma LinkedUpTo(m: Index, n: nat, k: nat)
    requires Linked(m, n)
    ensures k <= n ==> Linked(m, k)
  {
    if k <= n { LinkedBelow(m, n, k); }
  }

  lemma FiledIsTop(t: Tables, syncHeight: Option<Height>, h: Height)
    requires StoreValid(t, syncHeight) && h in t.heightToHash
    ensures Linked(t.heightToHash, h) ==> Top(ChainOf(t.heightToHash, h)) == t.heightToHash[h]
  {
    if h == 0 { assert IsAt(t.heightToHash[0], 0); }
  }

  // A rewind leaves headers above the new tip in the store. Once the chain grows differently, the
  // store stays fit for a restart; but a kernel still on the old branch would make the stale header
  // the tip, above a parent it does not have.
  lemma StaleHeaderBreaksChain(t: Tables, n: Height, f: nat, header: Header, kernel: Height -> Option<Hash>)
    requires StoreValid(t, Some(n)) && f + 2 <= n
    requires header.prev == Filed(t.heightToHash, f)
    requires header.BlockHash() != t.heightToHash[f + 1]
    requires kernel(f + 2) == Some(t.heightToHash[f + 2])
    ensures
      var u := InsertAll(t, [(header, f + 1)]);
      && StoreValid(u, Some(f + 1)) && f + 2 in u.heightToHash && !Linked(u.heightToHash, f + 2)
      && CommonHeight(u, kernel, f + 2, f + 2) == f + 2
  {
    hide IsAt, Linked, LinkedChain, Consistent, Rooted, InsertAll, Files, OwnHeights, GetByHeight, Consecutive, Hashes;
    var batch: seq<(Header, Height)>, m := [(header, f + 1)], t.heightToHash;
    var u := InsertAll(t, batch);
    StoredAbove(t, n, f, header);
    FiledAbove(t.heightToHash, u.heightToHash, n, f, header);
    LookupsAgree(u, f + 2);
    StaleParent(m, u.heightToHash, n, f);
  }

  lemma StoredAbove(t: Tables, n: Height, f: nat, header: Header)
    requires StoreValid(t, Some(n)) && f + 1 <= n && header.prev == Filed(t.heightToHash, f)
    ensures var u := InsertAll(t, [(header, f + 1)]);
            StoreValid(u, Some(f + 1)) && Files(t.heightToHash, u.heightToHash, [(header, f + 1)], f + 1)
  {
    hide IsAt, LinkedChain, Consistent, Rooted, InsertAll, Files, OwnHeights;
    var batch: seq<(Header, Height)>, m := [(header, f + 1)], t.heightToHash;
    LinkedBelow(m, n, f);
    assert Hashes(batch) == [header.BlockHash()];
    LinkedPush(ChainOf(m, f), header.BlockHash());
    StoredIsValid(t, Some(n), f, batch);
    BatchOwnsHeights(t, f, batch);
    InsertAllFiles(t, batch, f + 1);
  }

  lemma FiledAbove(m: Index, u: Index, n: nat, f: nat, header: Header)
    requires Linked(m, n) && f + 2 <= n && Files(m, u, [(header, f + 1)], f + 1)
    ensures f + 2 in m && f + 1 in u && u[f + 1] == header.BlockHash() && f + 2 in u && u[f + 2] == m[f + 2]
  {
  }

  lemma StaleParent(m: Index, u: Index, n: nat, f: nat)
    requires Linked(m, n) && f + 2 <= n
    requires f + 1 in u && f + 2 in u && u[f + 1] != m[f + 1] && u[f + 2] == m[f + 2]
    ensures !Linked(u, f + 2)
  {
    LinkedParent(m, n, f + 2);
    if Linked(u, f + 2) {
      LinkedParent(u, f + 2, f + 2);
    }
  }

  function Filed(m: Index, h: nat): Hash {
    if 0 < h < U32 && h in m then m[h] else GENESIS
  }

  lemma LinkedParent(m: Index, n: nat, h: nat)
    requires Linked(m, n) && 2 <= h <= n
    ensures m[h].HashOf? && m[h].prev == m[h - 1]
  {
    var c := ChainOf(m, n);
    assert c[h - 1].prev == Top(c[..h - 1]) == c[h - 2];
  }

  // ---- Locators ----

  // The heights listed from `h` down, `count` being listed already: steps of one for the first ten,
  // then doubling, and always genesis.
  function LocatorHeights(h: nat, count: nat, step: nat): seq<nat>
    requires step >= 1
    decreases h
  {
    if h == 0 then [0]
    else
      var next := if count + 1 >= 10 then step * 2 else step;
      [h] + LocatorHeights(if h < next then 0 else h - next, count + 1, next)
  }

  function HashesAt(chain: seq<Hash>, heights: seq<nat>): (s: seq<Hash>)
    ensures |s| == |heights|
  {
    seq(|heights|, k requires 0 <= k < |heights| =>
      if 0 < heights[k] <= |chain| then chain[heights[k] - 1] else GENESIS)
  }

  // The hashes filed at the heights visited from `h` down, `count` being listed already.
  function Walked(t: Tables, h: nat, count: nat, step: nat): seq<Hash>
    requires h < U32 && step >= 1
    decreases h
  {
    var stored := GetByHeight(t, h);
    var here := if stored.Ok? && stored.value.Some? then [stored.value.value.hash] else [];
    if h == 0 then here
    else
      var next := if count + |here| >= 10 then step * 2 else step;
      here + Walked(t, if h < next then 0 else h - next, count + |here|, next)
  }

  function EndedByGenesis(s: seq<Hash>): seq<Hash> {
    if s != [] && s[|s| - 1] == GENESIS then s else s + [GENESIS]
  }

  lemma WalkedUnfolds(t: Tables, h: nat, listed: seq<Hash>, step: nat)
    requires h < U32 && step >= 1
    ensures var stored := GetByHeight(t, h);
            var here := if stored.Ok? && stored.value.Some? then listed + [stored.value.value.hash] else listed;
            var next := if |here| >= 10 then step * 2 else step;
            listed + Walked(t, h, |listed|, step) ==
              if h == 0 then here else here + Walked(t, if h < next then 0 else h - next, |here|, next)
  {
    hide GetByHeight;
  }

  // With a header at every height, the heights visited are those of the locator, and genesis ends it
  // whether or not it is filed.
  lemma {:induction false} WalkedDown(t: Tables, syncHeight: Option<Height>, n: nat, h: nat, count: nat, step: nat)
    requires StoreValid(t, syncHeight) && Linked(t.heightToHash, n) && h <= n && step >= 1
    ensures var heights := LocatorHeights(h, count, step);
            && heights != [] && heights[|heights| - 1] == 0
            && (forall k :: 0 <= k < |heights| - 1 ==> 0 < heights[k] <= n)
            && Walked(t, h, count, step) ==
                 HashesAt(ChainOf(t.heightToHash, n), heights[..|heights| - 1])
                 + (if 0 in t.heightToHash then [GENESIS] else [])
    decreases h
  {
    hide StoreValid, LinkedChain, GetByHeight, HashesAt, LocatorHeights, Walked;
    var chain := ChainOf(t.heightToHash, n);
    UnfoldAtZero(t, syncHeight, n, count, step);
    ListCons(chain, 0, []);
    if h > 0 {
      LookupOnChain(t, syncHeight, n, h);
      var next := if count + 1 >= 10 then step * 2 else step;
      var below := if h < next then 0 else h - next;
      UnfoldAbove(t, h, count, step);
      WalkedDown(t, syncHeight, n, below, count + 1, next);
      var heights := LocatorHeights(below, count + 1, next);
      var front := heights[..|heights| - 1];
      assert ([h] + heights)[..|heights|] == [h] + front;
      ListCons(chain, h, front);
    }
  }

  lemma UnfoldAtZero(t: Tables, syncHeight: Option<Height>, n: nat, count: nat, step: nat)
    requires StoreValid(t, syncHeight) && Linked(t.heightToHash, n) && step >= 1
    ensures LocatorHeights(0, count, step) == [0]
    ensures Walked(t, 0, count, step) == if 0 in t.heightToHash then [GENESIS] else []
  {
    LookupIsFiled(t, syncHeight, n, 0);
  }

  lemma UnfoldAbove(t: Tables, h: nat, count: nat, step: nat)
    requires 0 < h < U32 && step >= 1 && GetByHeight(t, h).Ok? && GetByHeight(t, h).value.Some?
    ensures var next := if count + 1 >= 10 then step * 2 else step;
            var below := if h < next then 0 else h - next;
            && LocatorHeights(h, count, step) == [h] + LocatorHeights(below, count + 1, next)
            && Walked(t, h, count, step) == [GetByHeight(t, h).value.value.hash] + Walked(t, below, count + 1, next)
  {
    hide GetByHeight;
  }

  lemma ListCons(chain: seq<Hash>, h: nat, heights: seq<nat>)
    ensures HashesAt(chain, []) == []
    ensures HashesAt(chain, [h] + heights)
         == [if 0 < h <= |chain| then chain[h - 1] else GENESIS] + HashesAt(chain, heights)
  {
  }

  lemma WalkedOnChain(t: Tables, syncHeight: Option<Height>, n: nat)
    requires StoreValid(t, syncHeight) && Linked(t.heightToHash, n)
    ensures n < U32 && EndedByGenesis(Walked(t, n, 0, 1))
        == HashesAt(ChainOf(t.heightToHash, n), LocatorHeights(n, 0, 1))
  {
    hide StoreValid, LinkedChain, Walked, LocatorHeights;
    WalkedDown(t, syncHeight, n, n, 0, 1);
    var chain, heights := ChainOf(t.heightToHash, n), LocatorHeights(n, 0, 1);
    var front := heights[..|heights| - 1];
    NoGenesisAbove(t, syncHeight, n, front);
    ListOne(chain, front, 0);
    assert heights == front + [0];
  }

  lemma ListOne(chain: seq<Hash>, heights: seq<nat>, h: nat)
    ensures HashesAt(chain, heights + [h])
         == HashesAt(chain, heights) + [if 0 < h <= |chain| then chain[h - 1] else GENESIS]
  {
  }

  // A locator starts at the tip, goes strictly down, and ends in genesis.
  lemma {:induction false} LocatorDescends(h: nat, count: nat, step: nat)
    requires step >= 1
    ensures var l := LocatorHeights(h, count, step);
            && l != [] && l[0] == h && l[|l| - 1] == 0
            && (forall i :: 0 <= i < |l| ==> l[i] <= h)
            && forall i, j :: 0 <= i < j < |l| ==> l[i] > l[j]
    decreases h
  {
    if h > 0 {
      var next := if count + 1 >= 10 then step * 2 else step;
      var below := if h < next then 0 else h - next;
      LocatorDescends(below, count + 1, next);
      var l, rest := LocatorHeights(h, count, step), LocatorHeights(below, count + 1, next);
      assert l == [h] + rest;
      forall i, j | 0 <= i < j < |l| ensures l[i] > l[j] {
        if i > 0 { assert rest[i - 1] > rest[j - 1]; } else { assert rest[j - 1] <= below; }
      }
    }
  }

  function Pow2(n: nat): nat {
    if n == 0 then 1 else 2 * Pow2(n - 1)
  }

  // How far below the tip the entry `i` lies.
  function Depth(i: nat): nat {
    if i <= 9 then i else 7 + Pow2(i - 8)
  }

  function StepAt(i: nat): nat {
    if i <= 9 then 1 else Pow2(i - 9)
  }

  lemma {:induction false} DepthStep(i: nat)
    ensures StepAt(i) >= 1 && StepAt(i + 1) == (if i + 1 >= 10 then StepAt(i) * 2 else StepAt(i))
    ensures Depth(i + 1) == Depth(i) + StepAt(i + 1)
    decreases i
  {
    if i >= 10 { DepthStep(i - 1); }
  }

  lemma {:induction false} LocatorEntry(h: nat, i: nat, tip: nat, k: nat)
    requires h == (if tip < Depth(i) then 0 else tip - Depth(i)) && StepAt(i) >= 1
    ensures
      var l := LocatorHeights(h, i, StepAt(i));
      && l != []
      && (k < |l| ==> l[k] == if tip < Depth(i + k) then 0 else tip - Depth(i + k))
      && (k < |l| - 1 ==> Depth(i + k) < tip) && (k == |l| - 1 ==> tip <= Depth(i + k))
    decreases h
  {
    hide Depth, StepAt;
    if h > 0 {
      DepthStep(i);
      DepthStep(i + 1);
      var next := StepAt(i + 1);
      var below := if h < next then 0 else h - next;
      LocatorEntry(below, i + 1, tip, if k == 0 then 0 else k - 1);
      assert LocatorHeights(h, i, StepAt(i)) == [h] + LocatorHeights(below, i + 1, next);
    }
  }

  // A locator lists the tip and the nine heights below it, then heights 11, 15, 23, ... below the tip,
  // 7 + 2^(k - 8) for the entry `k`, as long as they are above genesis, and ends in genesis.
  lemma LocatorIs(tip: nat, k: nat)
    ensures
      var l := LocatorHeights(tip, 0, 1);
      && l != []
      && (k < |l| ==> l[k] == if tip < Depth(k) then 0 else tip - Depth(k))
      && (k < |l| - 1 ==> Depth(k) < tip) && (k == |l| - 1 ==> tip <= Depth(k))
  {
    hide LocatorHeights, Pow2;
    LocatorEntry(tip, 0, tip, k);
  }

  // All that is filed from height `h` down.
  ghost function FiledDown(t: Tables, h: nat): seq<Hash>
    requires h < U32
  {
    (if h in t.heightToHash then [t.heightToHash[h]] else []) + if h == 0 then [] else FiledDown(t, h - 1)
  }

  lemma WalkedBy(t: Tables, h: nat, count: nat)
    requires Consistent(t) && h < U32
    ensures h in t.heightToHash ==>
              |Walked(t, h, count, 1)| >= 1 && Walked(t, h, count, 1)[0] == t.heightToHash[h]
    ensures h in t.heightToHash && h > 0 && count < 9 ==>
              Walked(t, h, count, 1) == [t.heightToHash[h]] + Walked(t, h - 1, count + 1, 1)
    ensures h !in t.heightToHash && h > 0 && count <= 9 ==> Walked(t, h, count, 1) == Walked(t, h - 1, count, 1)
  {
    hide Consistent;
    LookupsAgree(t, h);
    hide GetByHeight;
  }

  // Whatever gaps there are, the first ten entries are the ten highest hashes filed.
  lemma {:induction false} WalkedListsHighest(t: Tables, h: nat, count: nat, k: nat)
    requires Consistent(t) && h < U32 && count + k <= 9 && k < |FiledDown(t, h)|
    ensures k < |Walked(t, h, count, 1)| && Walked(t, h, count, 1)[k] == FiledDown(t, h)[k]
    decreases h
  {
    hide Consistent, Walked;
    WalkedBy(t, h, count);
    if h in t.heightToHash {
      if k > 0 {
        assert FiledDown(t, h) == [t.heightToHash[h]] + FiledDown(t, h - 1);
        WalkedListsHighest(t, h - 1, count + 1, k - 1);
      }
    } else {
      WalkedListsHighest(t, h - 1, count, k);
    }
  }

  // Once the steps double, the number listed is logarithmic in the height.
  lemma {:induction false} DoublingIsShort(h: nat, count: nat, step: nat)
    requires step >= 1 && count >= 9
    ensures var l := LocatorHeights(h, count, step);
            |l| >= 1 && (|l| >= 2 ==> (Pow2(|l| - 1) - 2) * step < h)
    decreases h
  {
    if h > 0 {
      var below := if h < step * 2 then 0 else h - step * 2;
      DoublingIsShort(below, count + 1, step * 2);
      var l, rest := LocatorHeights(h, count, step), LocatorHeights(below, count + 1, step * 2);
      assert l == [h] + rest;
      if |rest| >= 2 {
        var p := Pow2(|rest| - 1);
        assert Pow2(|l| - 1) == 2 * p;
        assert (p - 2) * (step * 2) == (2 * p - 4) * step;
        assert (2 * p - 2) * step == (2 * p - 4) * step + 2 * step;
      } else {
        assert Pow2(1) == 2;
      }
    }
  }

  lemma {:induction false} LocatorLength(h: nat, count: nat)
    requires count <= 9
    ensures var l := LocatorHeights(h, count, 1);
            |l| > 10 - count ==> Pow2(|l| - (10 - count)) <= h + 1
    decreases h
  {
    var l := LocatorHeights(h, count, 1);
    if count == 9 {
      DoublingIsShort(h, 9, 1);
    } else if h > 0 {
      LocatorLength(h - 1, count + 1);
      assert l == [h] + LocatorHeights(h - 1, count + 1, 1);
    }
  }

  // For a tip at height `tip` a locator has at most 10 + log2(tip + 1) entries.
  lemma LocatorIsShort(tip: nat)
    ensures var l := LocatorHeights(tip, 0, 1);
            |l| > 10 ==> Pow2(|l| - 10) <= tip + 1
  {
    LocatorLength(tip, 0);
  }

  // ---- Facts about the store under the engine ----

  lemma LookupIsFiled(t: Tables, syncHeight: Option<Height>, n: nat, h: nat)
    requires StoreValid(t, syncHeight) && Linked(t.heightToHash, n) && h <= n
    ensures h < U32 && GetByHeight(t, h).Ok?
    ensures
      match FiledAt(ChainOf(t.heightToHash, n), 0 in t.heightToHash, h)
      case None => GetByHeight(t, h).value.None?
      case Some(x) => GetByHeight(t, h).value.Some? && GetByHeight(t, h).value.value.hash == x
  {
    LookupsAgree(t, h);
    if h == 0 && 0 in t.heightToHash {
      assert IsAt(t.heightToHash[0], 0);
    }
  }

  lemma LookupOnChain(t: Tables, syncHeight: Option<Height>, n: nat, h: nat)
    requires StoreValid(t, syncHeight) && Linked(t.heightToHash, n) && 0 < h <= n
    ensures h < U32 && GetByHeight(t, h).Ok? && GetByHeight(t, h).value.Some?
    ensures GetByHeight(t, h).value.value.hash == ChainOf(t.heightToHash, n)[h - 1]
  {
    LookupIsFiled(t, syncHeight, n, h);
  }

  lemma NoGenesisAbove(t: Tables, syncHeight: Option<Height>, n: nat, listed: seq<nat>)
    requires StoreValid(t, syncHeight) && Linked(t.heightToHash, n)
    requires forall k :: 0 <= k < |listed| ==> 0 < listed[k] <= n
    ensures forall k :: 0 <= k < |listed| ==> HashesAt(ChainOf(t.heightToHash, n), listed)[k] != GENESIS
  {
    forall k | 0 <= k < |listed| ensures HashesAt(ChainOf(t.heightToHash, n), listed)[k] != GENESIS {
      var h: Height := listed[k];
      assert IsAt(t.heightToHash[h], h);
      if t.heightToHash[h] == GENESIS { AtOneHeight(GENESIS, h, 0); }
    }
  }

  // Rewinding to the height `prev` is filed at leaves it as the tip.
  lemma RewindIs(t: Tables, syncHeight: Option<Height>, n: nat, f: nat, prev: Hash)
    requires StoreValid(t, syncHeight) && Linked(t.heightToHash, n)
    requires ForkPoint(ChainOf(t.heightToHash, n), 0 in t.heightToHash, prev) == Some(f)
    ensures f <= n && Reorganized(t, n, f, []).Ok?
    ensures var u := Reorganized(t, n, f, []).value.0;
            && StoreValid(u, Some(f)) && Linked(u.heightToHash, f)
            && ChainOf(u.heightToHash, f) == ChainOf(t.heightToHash, n)[..f]
            && Top(ChainOf(u.heightToHash, f)) == prev
            && (0 in u.heightToHash <==> 0 in t.heightToHash)
            && SameAbove(t.heightToHash, u.heightToHash, n)
  {
    hide LinkedChain, ForkPoint, Consistent, Rooted, Reorganized;
    ForkPointExactlyWhen(ChainOf(t.heightToHash, n), 0 in t.heightToHash, prev, f);
    RewindingLinks(t, n, f);
  }

  // Storing a checked batch leaves the store fit for a restart at the batch's end.
  lemma StoredIsValid(t: Tables, syncHeight: Option<Height>, n: nat, batch: seq<(Header, Height)>)
    requires StoreValid(t, syncHeight) && Linked(t.heightToHash, n)
    requires Consecutive(batch, n + 1) && n + |batch| < U32
    requires LinkedChain(ChainOf(t.heightToHash, n) + Hashes(batch))
    ensures var u := InsertAll(t, batch);
            && StoreValid(u, Some(n + |batch|)) && Linked(u.heightToHash, n + |batch|)
            && ChainOf(u.heightToHash, n + |batch|) == ChainOf(t.heightToHash, n) + Hashes(batch)
            && (0 in u.heightToHash <==> 0 in t.heightToHash)
            && SameAbove(t.heightToHash, u.heightToHash, n + |batch|)
  {
    hide LinkedChain, Consistent, Rooted, InsertAll;
    StoringLinks(t, n, batch);
  }

  lemma BatchPush(chain: seq<Hash>, checked: seq<(Header, Height)>, header: Header, first: nat)
    requires first + |checked| < U32 && Consecutive(checked, first)
    requires LinkedChain(chain + Hashes(checked)) && header.prev == Top(chain + Hashes(checked))
    ensures var more := checked + [(header, first + |checked|)];
            && Consecutive(more, first) && Hashes(more) == Hashes(checked) + [header.BlockHash()]
            && LinkedChain(chain + Hashes(more)) && Top(chain + Hashes(more)) == header.BlockHash()
  {
    hide LinkedChain;
    var x := header.BlockHash();
    var more := checked + [(header, first + |checked|)];
    assert Hashes(more) == Hashes(checked) + [x];
    assert chain + (Hashes(checked) + [x]) == chain + Hashes(checked) + [x];
    LinkedPush(chain + Hashes(checked), x);
  }

  lemma StartsLinked(m: Index, n: nat)
    requires Linked(m, n)
    ensures ChainOf(m, n) + [] == ChainOf(m, n) && LinkedChain(ChainOf(m, n) + [])
  {
    assert ChainOf(m, n) + [] == ChainOf(m, n);
  }

  lemma LastHash(chain: seq<Hash>, batch: seq<(Header, Height)>)
    requires batch != []
    ensures Top(chain + Hashes(batch)) == batch[|batch| - 1].0.BlockHash()
  {
  }

  lemma NothingChecked(first: nat)
    ensures Hashes([]) == [] && Consecutive([], first)
  {
  }

  // ---- A stale header becomes the tip ----

  const A1 := HashOf(GENESIS, 1)
  const A2 := HashOf(A1, 1)
  const A3 := HashOf(A2, 1)
  const B2 := HashOf(A1, 2)

  // A message of headers that link on to the tip, with no failures.
  method Extend(engine: SyncEngine, headers: seq<Header>)
    requires engine.Valid() && engine.tipHeight + |headers| < U32 && LinkOn(engine.tipHash, headers)
    modifies engine, engine.store
    ensures engine.Valid() && engine.Chain() == old(engine.Chain()) + HeaderHashes(headers)
    ensures SameAbove(old(engine.store.heightToHash), engine.store.heightToHash, Max(old(engine.tipHeight),
        engine.tipHeight))
  {
    hide LinkedChain, StoreValid, SameAbove, Follow, LinkOn;
    var all := (h: Header) => true;
    ghost var w := Start(engine.Chain());
    assert w.chain + [] == w.chain;
    FollowExtends(w, engine.GenesisFiled(), headers, all, all);
    assert [] + HeaderHashes(headers) == HeaderHashes(headers);
    engine.HandleHeaders(headers, all, all, true);
  }

  // Move the tip to a height the kernel agrees on.
  method RewindTo(engine: SyncEngine, height: Height, hash: Hash)
    requires engine.Valid() && height in engine.store.heightToHash && engine.store.heightToHash[height] == hash
    modifies engine
    ensures engine.tipHeight == height
    ensures engine.Valid() <==> Linked(engine.store.heightToHash, height)
  {
    hide LinkedChain, Linked, IsAt;
    var kernel := (h: Height) => if h == height then Some(hash) else None;
    LookupsAgree(engine.store.View(), height);
    assert CommonHeight(engine.store.View(), kernel, height, height) == height;
    engine.RewindToKernel(kernel, height);
  }

  // A new engine that has been sent three headers.
  method ThreeHeaders() returns (engine: SyncEngine)
    ensures fresh(engine) && fresh(engine.store) && engine.Valid() && engine.Chain() == [A1, A2, A3]
  {
    hide LinkedChain, IsAt, StoreValid;
    var store := new NodeStore();
    NothingStored();
    engine := new SyncEngine(store);
    var first := [Header(GENESIS, 1), Header(A1, 1), Header(A2, 1)];
    FirstLinks(first);
    Extend(engine, first);
  }

  // The last of them stays filed when the tip is rewound to the first.
  method HeadersStay() returns (engine: SyncEngine)
    ensures fresh(engine) && fresh(engine.store) && engine.Valid()
    ensures engine.Chain() == [A1] && 3 in engine.store.heightToHash && engine.store.heightToHash[3] == A3
  {
    hide LinkedChain, IsAt, StoreValid;
    engine := ThreeHeaders();
    var m := engine.store.heightToHash;
    assert engine.Chain()[0] == m[1] && engine.Chain()[2] == m[3];
    LinkedUpTo(m, 3, 1);
    RewindTo(engine, 1, A1);
  }

  // Another second header does not change that.
  method StaleHeaderStays() returns (engine: SyncEngine)
    ensures fresh(engine) && fresh(engine.store) && engine.Valid()
    ensures engine.Chain() == [A1, B2] && 3 in engine.store.heightToHash && engine.store.heightToHash[3] == A3
  {
    hide LinkedChain, IsAt, StoreValid;
    engine := HeadersStay();
    var second := [Header(A1, 2)];
    assert second[1..] == [] && HeaderHashes(second) == [B2] && LinkOn(A1, second);
    Extend(engine, second);
  }

  // A kernel that is on the old branch makes the old header the tip, above a parent it does not have.
  method StaleHeaderBecomesTip() returns (engine: SyncEngine)
    ensures fresh(engine) && engine.tipHeight == 3 && !engine.Valid()
  {
    hide LinkedChain, IsAt, StoreValid;
    engine := StaleHeaderStays();
    assert engine.Chain()[1] == engine.store.heightToHash[2];
    RewindTo(engine, 3, A3);
    ghost var m := engine.store.heightToHash;
    if Linked(m, 3) { LinkedParent(m, 3, 3); }
  }

  lemma NothingStored()
    ensures StoreValid(Tables(map[], map[], map[]), None)
  {
  }

  lemma FirstLinks(headers: seq<Header>)
    requires headers == [Header(GENESIS, 1), Header(A1, 1), Header(A2, 1)]
    ensures LinkOn(GENESIS, headers) && HeaderHashes(headers) == [A1, A2, A3]
  {
    var two, one := headers[1..], headers[2..];
    assert two[1..] == one && one[1..] == [];
    assert LinkOn(A2, one) && HeaderHashes(one) == [A3];
    assert LinkOn(A1, two) && HeaderHashes(two) == [A2, A3];
  }
}
