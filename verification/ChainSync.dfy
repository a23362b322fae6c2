// Header sync as a function on the chain of header hashes, and how that chain sits in the store.
module ChainSync {
  import opened Common
  import opened HeaderTables

  // The genesis block of the configured network.
  const GENESIS := HashOf(Zeros, 0)

  // How many blocks below the tip the search for a fork looks.
  const FORK_DEPTH: nat := 2016

  // ---- Chains ----

  // The hash `n` steps after genesis.
  ghost predicate IsAt(x: Hash, n: nat)
    decreases n
  {
    if n == 0 then x == GENESIS else x.HashOf? && IsAt(x.prev, n - 1)
  }

  // A hash has one height only.
  lemma {:induction false} AtOneHeight(x: Hash, n: nat, m: nat)
    requires IsAt(x, n) && IsAt(x, m)
    ensures n == m
    decreases n
  {
    if n > 0 && m > 0 {
      AtOneHeight(x.prev, n - 1, m - 1);
    }
  }

  function Top(chain: seq<Hash>): Hash {
    if chain == [] then GENESIS else chain[|chain| - 1]
  }

  // Each hash of the chain has the one before it as its parent, and the first one genesis.
  ghost predicate LinkedChain(chain: seq<Hash>) {
    forall i :: 0 <= i < |chain| ==> chain[i].HashOf? && chain[i].prev == Top(chain[..i])
  }

  lemma {:induction false} ChainHeights(chain: seq<Hash>, n: nat)
    requires LinkedChain(chain) && n <= |chain|
    ensures IsAt(Top(chain[..n]), n)
  {
    if n > 0 {
      ChainHeights(chain, n - 1);
      assert Top(chain[..n]) == chain[n - 1];
    }
  }

  lemma LinkedPush(chain: seq<Hash>, x: Hash)
    requires LinkedChain(chain) && x.HashOf? && x.prev == Top(chain)
    ensures LinkedChain(chain + [x])
  {
    forall i | 0 <= i < |chain + [x]| ensures (chain + [x])[i].HashOf? &&
        (chain + [x])[i].prev == Top((chain + [x])[..i]) {
      assert (chain + [x])[..i] == chain[..i];
      if i == |chain| { assert chain[..i] == chain; }
    }
  }

  lemma LinkedPrefix(chain: seq<Hash>, n: nat)
    requires LinkedChain(chain) && n <= |chain|
    ensures LinkedChain(chain[..n])
  {
    forall i | 0 <= i < n ensures chain[..n][i].HashOf? && chain[..n][i].prev == Top(chain[..n][..i]) {
      assert chain[..n][..i] == chain[..i];
    }
  }

  // ---- Finding a fork ----

  // What is filed at height `h`; genesis itself need not be.
  function FiledAt(chain: seq<Hash>, genesisFiled: bool, h: nat): Option<Hash>
    requires h <= |chain|
  {
    if h > 0 then Some(chain[h - 1]) else if genesisFiled then Some(GENESIS) else None
  }

  // Look for `prev` at height `h` and below, giving up far below the tip.
  function ScanBack(chain: seq<Hash>, genesisFiled: bool, prev: Hash, h: nat): Option<nat>
    requires h <= |chain|
    decreases h
  {
    if FiledAt(chain, genesisFiled, h) == Some(prev) then Some(h)
    else if |chain| - h > FORK_DEPTH || h == 0 then None
    else ScanBack(chain, genesisFiled, prev, h - 1)
  }

  function ForkPoint(chain: seq<Hash>, genesisFiled: bool, prev: Hash): Option<nat> {
    ScanBack(chain, genesisFiled, prev, |chain|)
  }

  // The search finds the height of `prev` exactly when it is filed at most 2017 below the tip.
  lemma ForkPointExactlyWhen(chain: seq<Hash>, genesisFiled: bool, prev: Hash, f: nat)
    requires LinkedChain(chain)
    ensures ForkPoint(chain, genesisFiled, prev) == Some(f) <==>
              f <= |chain| <= f + FORK_DEPTH + 1 && FiledAt(chain, genesisFiled, f) == Some(prev)
  {
    ScanBackFinds(chain, genesisFiled, prev, |chain|, f);
  }

  lemma {:induction false} ScanBackFinds(chain: seq<Hash>, genesisFiled: bool, prev: Hash, h: nat, f: nat)
    requires LinkedChain(chain) && h <= |chain| <= h + FORK_DEPTH + 1
    ensures ScanBack(chain, genesisFiled, prev, h) == Some(f) <==>
              f <= h && |chain| <= f + FORK_DEPTH + 1 && FiledAt(chain, genesisFiled, f) == Some(prev)
    decreases h
  {
    if FiledAt(chain, genesisFiled, h) == Some(prev) {
      if f <= h && FiledAt(chain, genesisFiled, f) == Some(prev) {
        FiledHeight(chain, genesisFiled, h);
        FiledHeight(chain, genesisFiled, f);
        AtOneHeight(prev, h, f);
      }
    } else if |chain| - h <= FORK_DEPTH && h > 0 {
      ScanBackFinds(chain, genesisFiled, prev, h - 1, f);
    }
  }

  lemma FiledHeight(chain: seq<Hash>, genesisFiled: bool, h: nat)
    requires LinkedChain(chain) && h <= |chain| && FiledAt(chain, genesisFiled, h).Some?
    ensures IsAt(FiledAt(chain, genesisFiled, h).value, h)
  {
    ChainHeights(chain, h);
    if h > 0 { assert Top(chain[..h]) == chain[h - 1]; }
  }

  // ---- Following a batch of headers ----

  // The stored chain, the headers checked but not stored yet, the last fork, and whether to go on.
  datatype Walk = Walk(chain: seq<Hash>, batch: seq<Hash>, fork: Option<nat>, ok: bool)

  // Check headers one by one. One that does not link to the last one rewinds the stored chain to
  // where it forks off, and drops what was checked before it.
  function Follow(w: Walk, genesisFiled: bool, headers: seq<Header>, pow: Header -> bool, works: Header -> bool): Walk
    decreases headers
  {
    if headers == [] then w
    else
      var r := Checked(w, genesisFiled, headers[0], pow, works);
      if r.ok then Follow(r, genesisFiled, headers[1..], pow, works) else r
  }

  function Checked(w: Walk, genesisFiled: bool, header: Header, pow: Header -> bool, works: Header -> bool): Walk {
    var r := Rewound(w, genesisFiled, header, works);
    if !r.ok then r
    else if !pow(header) then r.(ok := false)
    else r.(batch := r.batch + [header.BlockHash()])
  }

  function Rewound(w: Walk, genesisFiled: bool, header: Header, works: Header -> bool): Walk {
    if header.prev == Top(w.chain + w.batch) then w
    else match ForkPoint(w.chain, genesisFiled, header.prev)
      case None => w.(ok := false)
      case Some(f) =>
        ForkInRange(w.chain, genesisFiled, header.prev);
        if !works(header) then w.(ok := false) else Walk(w.chain[..f], [], Some(f), true)
  }

  lemma ForkInRange(chain: seq<Hash>, genesisFiled: bool, prev: Hash)
    ensures match ForkPoint(chain, genesisFiled, prev) case None => true case Some(f) => f <= |chain|
  {
    ScanInRange(chain, genesisFiled, prev, |chain|);
  }

  lemma {:induction false} ScanInRange(chain: seq<Hash>, genesisFiled: bool, prev: Hash, h: nat)
    requires h <= |chain|
    ensures match ScanBack(chain, genesisFiled, prev, h) case None => true case Some(f) => f <= h
    decreases h
  {
    if FiledAt(chain, genesisFiled, h) != Some(prev) && !(|chain| - h > FORK_DEPTH || h == 0) {
      ScanInRange(chain, genesisFiled, prev, h - 1);
    }
  }

  function Start(chain: seq<Hash>): Walk {
    Walk(chain, [], None, true)
  }

  // The chain after a message: all of the batch, or none of it.
  function Followed(w: Walk, stores: bool): seq<Hash> {
    if w.ok && stores then w.chain + w.batch else w.chain
  }

  lemma RewoundLinks(w: Walk, genesisFiled: bool, header: Header, works: Header -> bool)
    requires LinkedChain(w.chain + w.batch) && w.ok
    ensures var r := Rewound(w, genesisFiled, header, works);
            && LinkedChain(r.chain + r.batch) && r.chain <= w.chain
            && (r.ok ==> header.prev == Top(r.chain + r.batch))
            && (r.fork != w.fork ==> r.fork == Some(|r.chain|) && r.batch == [] && r.ok)
            && (!r.ok ==> r.chain == w.chain)
  {
    hide LinkedChain, ForkPoint, FiledAt;
    if header.prev != Top(w.chain + w.batch) {
      ForkInRange(w.chain, genesisFiled, header.prev);
      assert (w.chain + w.batch)[..|w.chain|] == w.chain;
      LinkedPrefix(w.chain + w.batch, |w.chain|);
      match ForkPoint(w.chain, genesisFiled, header.prev)
      case None =>
      case Some(f) =>
        LinkedPrefix(w.chain, f);
        ForkIsTop(w.chain, genesisFiled, header.prev, f);
        assert w.chain[..f] + [] == w.chain[..f];
    }
  }

  lemma ForkIsTop(chain: seq<Hash>, genesisFiled: bool, prev: Hash, f: nat)
    requires LinkedChain(chain) && ForkPoint(chain, genesisFiled, prev) == Some(f)
    ensures f <= |chain| && Top(chain[..f]) == prev
  {
    hide LinkedChain, ForkPoint;
    ForkPointExactlyWhen(chain, genesisFiled, prev, f);
  }

  // Whatever headers arrive, the chain stays linked from genesis, and only ever loses its end
  // before it is extended.
  lemma {:induction false} FollowStaysLinked(w: Walk, genesisFiled: bool, headers: seq<Header>, pow: Header -> bool,
                                             works: Header -> bool)
    requires LinkedChain(w.chain + w.batch) && w.ok
    ensures var r := Follow(w, genesisFiled, headers, pow, works);
            LinkedChain(r.chain + r.batch) && LinkedChain(r.chain) && r.chain <= w.chain
    decreases headers
  {
    if headers == [] {
      assert (w.chain + w.batch)[..|w.chain|] == w.chain;
      LinkedPrefix(w.chain + w.batch, |w.chain|);
    } else {
      var r := Rewound(w, genesisFiled, headers[0], works);
      RewoundLinks(w, genesisFiled, headers[0], works);
      assert (r.chain + r.batch)[..|r.chain|] == r.chain;
      LinkedPrefix(r.chain + r.batch, |r.chain|);
      if r.ok && pow(headers[0]) {
        LinkedPush(r.chain + r.batch, headers[0].BlockHash());
        assert r.chain + (r.batch + [headers[0].BlockHash()]) == r.chain + r.batch + [headers[0].BlockHash()];
        FollowStaysLinked(r.(batch := r.batch + [headers[0].BlockHash()]), genesisFiled, headers[1..], pow, works);
      }
    }
  }

  // Nothing gets into the batch without meeting its target.
  lemma {:induction false} FollowChecksWork(w: Walk, genesisFiled: bool, headers: seq<Header>, pow: Header -> bool,
                                            works: Header -> bool)
    ensures forall x :: x in Follow(w, genesisFiled, headers, pow, works).batch ==>
              x in w.batch || exists h :: h in headers && pow(h) && x == h.BlockHash()
    decreases headers
  {
    if headers != [] {
      var r := Checked(w, genesisFiled, headers[0], pow, works);
      RewoundBatch(w, genesisFiled, headers[0], works);
      if r.ok {
        FollowChecksWork(r, genesisFiled, headers[1..], pow, works);
        forall x | x in Follow(w, genesisFiled, headers, pow, works).batch
          ensures x in w.batch || exists h :: h in headers && pow(h) && x == h.BlockHash()
        {
          if x !in r.batch {
            var h :| h in headers[1..] && pow(h) && x == h.BlockHash();
            assert h in headers;
          } else if x !in w.batch {
            assert headers[0] in headers;
          }
        }
      }
    }
  }

  lemma RewoundBatch(w: Walk, genesisFiled: bool, header: Header, works: Header -> bool)
    ensures Rewound(w, genesisFiled, header, works).batch
        == w.batch || Rewound(w, genesisFiled, header, works).batch == []
  {
    ForkInRange(w.chain, genesisFiled, header.prev);
  }

  // Headers that link on to the tip one after the other.
  ghost predicate LinkOn(top: Hash, headers: seq<Header>)
    decreases headers
  {
    headers == [] || (headers[0].prev == top && LinkOn(headers[0].BlockHash(), headers[1..]))
  }

  function HeaderHashes(headers: seq<Header>): seq<Hash> {
    if headers == [] then [] else [headers[0].BlockHash()] + HeaderHashes(headers[1..])
  }

  // Headers that link on and meet their targets extend the chain by just themselves.
  lemma {:induction false} FollowExtends(w: Walk, genesisFiled: bool, headers: seq<Header>, pow: Header -> bool,
                                         works: Header -> bool)
    requires w.ok && LinkOn(Top(w.chain + w.batch), headers) && forall h :: h in headers ==> pow(h)
    ensures Follow(w, genesisFiled, headers, pow, works) == w.(batch := w.batch + HeaderHashes(headers))
    decreases headers
  {
    if headers == [] {
      assert w.batch + [] == w.batch;
    } else {
      var x := headers[0].BlockHash();
      var next := w.(batch := w.batch + [x]);
      assert w.chain + (w.batch + [x]) == w.chain + w.batch + [x];
      FollowExtends(next, genesisFiled, headers[1..], pow, works);
      assert w.batch + [x] + HeaderHashes(headers[1..]) == w.batch + ([x] + HeaderHashes(headers[1..]));
    }
  }

  lemma {:induction false} FollowConcat(w: Walk, genesisFiled: bool, a: seq<Header>, b: seq<Header>,
                                        pow: Header -> bool, works: Header -> bool)
    ensures
      var r := Follow(w, genesisFiled, a, pow, works);
      w.ok ==> Follow(w, genesisFiled, a + b, pow, works) == if r.ok then Follow(r, genesisFiled, b, pow, works) else r
    decreases a
  {
    hide Checked;
    if a == [] {
      assert a + b == b;
    } else {
      assert (a + b)[0] == a[0] && (a + b)[1..] == a[1..] + b;
      FollowConcat(Checked(w, genesisFiled, a[0], pow, works), genesisFiled, a[1..], b, pow, works);
    }
  }

  lemma {:induction false} HeaderHashesTop(hashes: seq<Hash>, headers: seq<Header>)
    requires LinkedChain(hashes) && LinkOn(Top(hashes), headers)
    ensures LinkedChain(hashes + HeaderHashes(headers))
    decreases headers
  {
    hide LinkedChain, Top, LinkOn;
    if headers == [] {
      assert hashes + [] == hashes;
    } else {
      var x := headers[0].BlockHash();
      LinkOnFirst(Top(hashes), headers);
      LinkedPush(hashes, x);
      TopPush(hashes, x);
      HeaderHashesTop(hashes + [x], headers[1..]);
      assert hashes + [x] + HeaderHashes(headers[1..]) == hashes + HeaderHashes(headers);
    }
  }

  lemma TopPush(hashes: seq<Hash>, x: Hash)
    ensures Top(hashes + [x]) == x
  {
  }

  // The header names a hash filed on the chain, at most 2017 below its tip.
  ghost predicate ForksAt(chain: seq<Hash>, genesisFiled: bool, header: Header, f: nat) {
    f <= |chain| <= f + 2017 && FiledAt(chain, genesisFiled, f) == Some(header.prev)
  }

  // What the first header after some that link on and meet their targets does:
  // - one that links on is checked for its target, and if it misses it, ends the message;
  // - one that forks off within reach first rewinds the stored chain to there and drops what was
  //   checked before it, if the database accepts that, whether or not it meets its target;
  // - any other one ends the message and changes nothing.
  lemma NextHeaderDecides(w: Walk, genesisFiled: bool, front: seq<Header>, header: Header, rest: seq<Header>,
                          pow: Header -> bool, works: Header -> bool)
    requires w.ok && LinkedChain(w.chain + w.batch)
    requires LinkOn(Top(w.chain + w.batch), front) && forall h :: h in front ==> pow(h)
    ensures
      var x, batch := header.BlockHash(), w.batch + HeaderHashes(front);
      var r := Follow(w, genesisFiled, front + [header] + rest, pow, works);
      if header.prev == Top(w.chain + batch) then
        if pow(header) then r == Follow(w.(batch := batch + [x]), genesisFiled, rest, pow, works)
        else r == w.(batch := batch, ok := false)
      else
        && (forall f: nat :: ForksAt(w.chain, genesisFiled, header, f) && works(header) ==>
              if pow(header) then r == Follow(Walk(w.chain[..f], [x], Some(f), true), genesisFiled, rest, pow, works)
              else r == Walk(w.chain[..f], [], Some(f), false))
        && ((forall f: nat :: !ForksAt(w.chain, genesisFiled, header, f)) || !works(header) ==>
              r == w.(batch := batch, ok := false))
  {
    hide LinkedChain, Top, Checked, LinkOn, Follow;
    var batch := w.batch + HeaderHashes(front);
    var mid := w.(batch := batch);
    FollowExtends(w, genesisFiled, front, pow, works);
    FollowConcat(w, genesisFiled, front, [header] + rest, pow, works);
    assert front + ([header] + rest) == front + [header] + rest;
    FollowFirst(mid, genesisFiled, header, rest, pow, works);
    HeaderHashesTop(w.chain + w.batch, front);
    assert w.chain + w.batch + HeaderHashes(front) == w.chain + batch;
    CheckedIs(mid, genesisFiled, header, pow, works);
  }

  lemma FollowFirst(w: Walk, genesisFiled: bool, header: Header, rest: seq<Header>, pow: Header -> bool,
                    works: Header -> bool)
    ensures
      var r := Checked(w, genesisFiled, header, pow, works);
      Follow(w, genesisFiled, [header] + rest, pow, works) ==
        if r.ok then Follow(r, genesisFiled, rest, pow, works) else r
  {
    hide Checked;
    assert ([header] + rest)[1..] == rest;
  }

  lemma CheckedIs(w: Walk, genesisFiled: bool, header: Header, pow: Header -> bool, works: Header -> bool)
    requires w.ok && LinkedChain(w.chain + w.batch)
    ensures
      var r, x := Checked(w, genesisFiled, header, pow, works), header.BlockHash();
      if header.prev == Top(w.chain + w.batch) then
        r == if pow(header) then w.(batch := w.batch + [x]) else w.(ok := false)
      else
        && (forall f: nat :: ForksAt(w.chain, genesisFiled, header, f) && works(header) ==>
              r == if pow(header) then Walk(w.chain[..f], [x], Some(f), true)
                   else Walk(w.chain[..f], [], Some(f), false))
        && ((forall f: nat :: !ForksAt(w.chain, genesisFiled, header, f)) || !works(header) ==> r == w.(ok := false))
  {
    hide LinkedChain, ForkPoint, FiledAt;
    assert (w.chain + w.batch)[..|w.chain|] == w.chain;
    LinkedPrefix(w.chain + w.batch, |w.chain|);
    ForkInRange(w.chain, genesisFiled, header.prev);
    forall f: nat ensures ForkPoint(w.chain, genesisFiled, header.prev) == Some(f)
                     <==> ForksAt(w.chain, genesisFiled, header, f) {
      ForkPointExactlyWhen(w.chain, genesisFiled, header.prev, f);
    }
    assert [] + [header.BlockHash()] == [header.BlockHash()];
  }

  // A header that forks off and misses its target: the stored chain has still been rewound, and all that
  // was checked before it is lost.
  lemma FailedForkRewinds(chain: seq<Hash>, genesisFiled: bool, front: seq<Header>, header: Header,
                          rest: seq<Header>, pow: Header -> bool, works: Header -> bool, stores: bool, f: nat)
    requires LinkedChain(chain) && LinkOn(Top(chain), front) && forall h :: h in front ==> pow(h)
    requires header.prev != Top(chain + HeaderHashes(front))
    requires ForksAt(chain, genesisFiled, header, f) && works(header) && !pow(header)
    ensures
      var r := Follow(Start(chain), genesisFiled, front + [header] + rest, pow, works);
      Followed(r, stores) == chain[..f] && r.fork == Some(f) && !r.ok
  {
    hide LinkedChain, Follow, LinkOn, ForksAt;
    assert chain + [] == chain && [] + HeaderHashes(front) == HeaderHashes(front);
    NextHeaderDecides(Start(chain), genesisFiled, front, header, rest, pow, works);
  }

  lemma {:induction false} HeaderHashesLength(headers: seq<Header>)
    ensures |HeaderHashes(headers)| == |headers|
    decreases headers
  {
    if headers != [] {
      HeaderHashesLength(headers[1..]);
    }
  }

  // Headers branching off at a height the search reaches replace everything above that height,
  // however short the branch: the lengths are not compared. The chain gets shorter exactly when the
  // branch is shorter than what it replaces.
  lemma BranchReplaces(chain: seq<Hash>, genesisFiled: bool, f: nat, branch: seq<Header>, pow: Header -> bool,
                       works: Header -> bool)
    requires LinkedChain(chain) && f < |chain| <= f + FORK_DEPTH + 1 && branch != []
    requires FiledAt(chain, genesisFiled, f).Some? && LinkOn(FiledAt(chain, genesisFiled, f).value, branch)
    requires (forall h :: h in branch ==> pow(h)) && works(branch[0])
    ensures Followed(Follow(Start(chain), genesisFiled, branch, pow, works), true) == chain[..f] + HeaderHashes(branch)
    ensures |Followed(Follow(Start(chain), genesisFiled, branch, pow, works), true)| < |chain| <==>
              f + |branch| < |chain|
  {
    hide LinkedChain, FiledAt, Rewound, LinkOn;
    HeaderHashesLength(branch);
    LinkOnFirst(FiledAt(chain, genesisFiled, f).value, branch);
    BranchRewinds(chain, genesisFiled, f, branch[0], works);
    var w, x := Start(chain), branch[0].BlockHash();
    var next := Walk(chain[..f], [x], Some(f), true);
    assert next.batch == [] + [x];
    assert Top(next.chain + next.batch) == x;
    FollowExtends(next, genesisFiled, branch[1..], pow, works);
    assert Follow(w, genesisFiled, branch, pow, works) == Follow(next, genesisFiled, branch[1..], pow, works);
  }

  lemma LinkOnFirst(top: Hash, headers: seq<Header>)
    requires headers != [] && LinkOn(top, headers)
    ensures headers[0].prev == top && LinkOn(headers[0].BlockHash(), headers[1..])
  {
  }

  // A header that branches off within reach rewinds the chain to there.
  lemma BranchRewinds(chain: seq<Hash>, genesisFiled: bool, f: nat, header: Header, works: Header -> bool)
    requires LinkedChain(chain) && f < |chain| <= f + FORK_DEPTH + 1
    requires FiledAt(chain, genesisFiled, f) == Some(header.prev) && works(header)
    ensures Rewound(Start(chain), genesisFiled, header, works) == Walk(chain[..f], [], Some(f), true)
  {
    hide LinkedChain, IsAt, ForkPoint;
    assert chain + [] == chain;
    FiledHeight(chain, genesisFiled, f);
    ChainHeights(chain, |chain|);
    assert chain[..|chain|] == chain;
    if header.prev == Top(chain) { AtOneHeight(header.prev, f, |chain|); }
    ForkPointExactlyWhen(chain, genesisFiled, header.prev, f);
  }

  // Three headers give way to one that forks off after the first.
  lemma ShorterBranchReplaces()
    ensures
      var a1 := HashOf(GENESIS, 1);
      var a2 := HashOf(a1, 1);
      var chain := [a1, a2, HashOf(a2, 1)];
      var all := (h: Header) => true;
      && LinkedChain(chain)
      && Followed(Follow(Start(chain), false, [Header(a1, 2)], all, all), true) == [a1, HashOf(a1, 2)]
  {
    hide LinkedChain, Follow, Followed;
    var a1 := HashOf(GENESIS, 1);
    var a2 := HashOf(a1, 1);
    var chain := [a1, a2, HashOf(a2, 1)];
    ThreeLinked(a1, a2, HashOf(a2, 1));
    var branch := [Header(a1, 2)];
    assert branch[1..] == [] && HeaderHashes(branch) == [HashOf(a1, 2)];
    var all := (h: Header) => true;
    BranchReplaces(chain, false, 1, branch, all, all);
    assert chain[..1] + [HashOf(a1, 2)] == [a1, HashOf(a1, 2)];
  }

  lemma ThreeLinked(a: Hash, b: Hash, c: Hash)
    requires a.HashOf? && a.prev == GENESIS && b.HashOf? && b.prev == a && c.HashOf? && c.prev == b
    ensures LinkedChain([a, b, c])
  {
    LinkedPush([], a);
    assert [] + [a] == [a];
    LinkedPush([a], b);
    assert [a] + [b] == [a, b];
    LinkedPush([a, b], c);
    assert [a, b] + [c] == [a, b, c];
  }

  // ---- The chain in the store ----

  type Index = map<Height, Hash>

  ghost predicate Filled(m: Index, n: nat) {
    n < U32 && forall h: Height :: 1 <= h <= n ==> h in m
  }

  // The hashes filed at heights 1 to `n`.
  ghost function ChainOf(m: Index, n: nat): (s: seq<Hash>)
    requires Filled(m, n)
    ensures |s| == n && forall i :: 0 <= i < n ==> s[i] == m[i + 1]
  {
    seq(n, i requires 0 <= i < n => m[i + 1])
  }

  // Heights 1 to `n` hold a chain of headers from genesis.
  ghost predicate Linked(m: Index, n: nat) {
    Filled(m, n) && LinkedChain(ChainOf(m, n))
  }

  // Every filed hash is as many steps from genesis as its height says.
  ghost predicate Rooted(m: Index) {
    forall h :: h in m ==> IsAt(m[h], h)
  }

  // What restarting relies on: consistent tables, and a linked chain up to the recorded height.
  ghost predicate StoreValid(t: Tables, syncHeight: Option<Height>) {
    && Consistent(t) && Rooted(t.heightToHash)
    && Linked(t.heightToHash, match syncHeight case None => 0 case Some(h) => h)
  }

  lemma LinkedBelow(m: Index, n: nat, k: nat)
    requires Linked(m, n) && k <= n
    ensures Linked(m, k) && ChainOf(m, k) == ChainOf(m, n)[..k]
  {
    assert ChainOf(m, k) == ChainOf(m, n)[..k];
    LinkedPrefix(ChainOf(m, n), k);
  }

  // Nothing is filed or unfiled above height `h`.
  ghost predicate SameAbove(m: Index, n: Index, h: nat) {
    forall k: Height :: k > h ==> (k in m <==> k in n) && (k in m ==> m[k] == n[k])
  }

  lemma SameAboveItself(m: Index, h: nat)
    ensures SameAbove(m, m, h)
  {
  }

  lemma SameAboveTwice(m: Index, n: Index, u: Index, h: nat, k: nat)
    requires SameAbove(m, n, h) && SameAbove(n, u, k)
    ensures SameAbove(m, u, Max(h, k))
  {
  }

  // Storing a checked batch on top of the tip.
  lemma StoringLinks(t: Tables, n: nat, batch: seq<(Header, Height)>)
    requires Consistent(t) && Rooted(t.heightToHash) && Linked(t.heightToHash, n)
    requires Consecutive(batch, n + 1) && n + |batch| < U32
    requires LinkedChain(ChainOf(t.heightToHash, n) + Hashes(batch))
    ensures var u := InsertAll(t, batch);
            && Consistent(u) && Rooted(u.heightToHash) && Linked(u.heightToHash, n + |batch|)
            && ChainOf(u.heightToHash, n + |batch|) == ChainOf(t.heightToHash, n) + Hashes(batch)
            && (0 in u.heightToHash <==> 0 in t.heightToHash)
            && SameAbove(t.heightToHash, u.heightToHash, n + |batch|)
  {
    hide Consistent, LinkedChain, Rooted, Filled, Files, InsertAll, Consecutive, Hashes, OwnHeights, SameAbove;
    BatchOwnsHeights(t, n, batch);
    InsertAllFiles(t, batch, n + 1);
    FilledBy(t.heightToHash, InsertAll(t, batch).heightToHash, n, batch);
    RootedBy(t.heightToHash, InsertAll(t, batch).heightToHash, n, batch);
  }

  // Filing a batch above height `n` makes the chain longer by it.
  lemma FilledBy(m: Index, u: Index, n: nat, batch: seq<(Header, Height)>)
    requires Filled(m, n) && n + |batch| < U32 && Files(m, u, batch, n + 1)
    ensures Filled(u, n + |batch|) && ChainOf(u, n + |batch|) == ChainOf(m, n) + Hashes(batch)
    ensures (0 in u <==> 0 in m) && SameAbove(m, u, n + |batch|)
  {
    assert Filled(u, n + |batch|);
    var now, was, more := ChainOf(u, n + |batch|), ChainOf(m, n), Hashes(batch);
    forall i | 0 <= i < n + |batch| ensures now[i] == (was + more)[i] {
      assert i + 1 in u;
    }
  }

  lemma RootedBy(m: Index, u: Index, n: nat, batch: seq<(Header, Height)>)
    requires Rooted(m) && Filled(m, n) && n + |batch| < U32 && Files(m, u, batch, n + 1)
    requires LinkedChain(ChainOf(m, n) + Hashes(batch))
    ensures Rooted(u)
  {
    hide IsAt, LinkedChain, Filled;
    var all := ChainOf(m, n) + Hashes(batch);
    forall h | h in u ensures IsAt(u[h], h) {
      if n + 1 <= h <= n + |batch| {
        ChainHeights(all, h);
        assert Top(all[..h]) == all[h - 1] == Hashes(batch)[h - n - 1];
      } else {
        assert u[h] == m[h];
      }
    }
  }

  lemma BatchOwnsHeights(t: Tables, n: nat, batch: seq<(Header, Height)>)
    requires Rooted(t.heightToHash) && Filled(t.heightToHash, n) && Consecutive(batch, n + 1)
    requires LinkedChain(ChainOf(t.heightToHash, n) + Hashes(batch))
    ensures OwnHeights(t, batch)
  {
    hide IsAt, LinkedChain;
    var all := ChainOf(t.heightToHash, n) + Hashes(batch);
    forall i | 0 <= i < |batch| ensures IsAt(batch[i].0.BlockHash(), batch[i].1) {
      ChainHeights(all, n + 1 + i);
      assert Top(all[..n + 1 + i]) == all[n + i] == Hashes(batch)[i];
    }
    OwnHeightsOf(t, n + 1, batch);
  }

  lemma OwnHeightsOf(t: Tables, first: nat, batch: seq<(Header, Height)>)
    requires Rooted(t.heightToHash) && Consecutive(batch, first)
    requires forall i :: 0 <= i < |batch| ==> IsAt(batch[i].0.BlockHash(), batch[i].1)
    ensures OwnHeights(t, batch)
  {
    hide IsAt;
    forall i, h | 0 <= i < |batch| && h in t.heightToHash && t.heightToHash[h] == batch[i].0.BlockHash()
      ensures h == batch[i].1
    {
      AtOneHeight(t.heightToHash[h], h, batch[i].1);
    }
    forall i, j | 0 <= i < j < |batch| ensures batch[i].0.BlockHash() != batch[j].0.BlockHash() {
      if batch[i].0.BlockHash() == batch[j].0.BlockHash() {
        AtOneHeight(batch[i].0.BlockHash(), batch[i].1, batch[j].1);
      }
    }
  }

  // Rewinding to a height of the chain never fails and leaves the chain up to there.
  lemma RewindingLinks(t: Tables, n: Height, f: nat)
    requires Consistent(t) && Rooted(t.heightToHash) && Linked(t.heightToHash, n) && f <= n
    ensures Reorganized(t, n, f, []).Ok?
    ensures var u := Reorganized(t, n, f, []).value.0;
            && Consistent(u) && Rooted(u.heightToHash) && Linked(u.heightToHash, f)
            && ChainOf(u.heightToHash, f) == ChainOf(t.heightToHash, n)[..f]
            && (0 in u.heightToHash <==> 0 in t.heightToHash)
            && SameAbove(t.heightToHash, u.heightToHash, n)
  {
    hide Consistent, IsAt, LinkedChain, DisconnectRange, HashesDown;
    DisconnectRemoves(t, n, f + 1);
    var u := Reorganized(t, n, f, []).value.0;
    assert ChainOf(u.heightToHash, f) == ChainOf(t.heightToHash, n)[..f];
    LinkedPrefix(ChainOf(t.heightToHash, n), f);
  }
}
