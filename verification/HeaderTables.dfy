// The three header tables of wolfe-store as a value, and what each operation does to it.
module HeaderTables {
  import opened Common

  type Height = h: nat | h < U32

  // An idealised hash: it determines the header it was made of, and so all of its ancestry.
  datatype Hash = Zeros | HashOf(prev: Hash, payload: nat)

  datatype Header = Header(prev: Hash, payload: nat) {
    function BlockHash(): Hash { HashOf(prev, payload) }
  }

  datatype Tables = Tables(headers: map<Hash, Header>, heightToHash: map<Height, Hash>, hashToHeight: map<Hash, Height>)

  datatype Stored = Stored(header: Header, height: Height, hash: Hash)

  datatype Corruption = HeightIndexMissing(hash: Hash) | HeaderMissing(height: Height)

  type Lookup = Result<Option<Stored>, Corruption>

  // ---- Operations ----

  function Insert(t: Tables, header: Header, height: Height): Tables {
    var hash := header.BlockHash();
    Tables(t.headers[hash := header], t.heightToHash[height := hash], t.hashToHeight[hash := height])
  }

  function Remove(t: Tables, hash: Hash): Tables {
    Tables(t.headers - {hash},
           if hash in t.hashToHeight then t.heightToHash - {t.hashToHeight[hash]} else t.heightToHash,
           t.hashToHeight - {hash})
  }

  function GetByHash(t: Tables, hash: Hash): Lookup {
    if hash !in t.headers then Ok(None)
    else if hash !in t.hashToHeight then Err(HeightIndexMissing(hash))
    else Ok(Some(Stored(t.headers[hash], t.hashToHeight[hash], hash)))
  }

  function GetByHeight(t: Tables, height: Height): Lookup {
    if height !in t.heightToHash then Ok(None) else GetByHash(t, t.heightToHash[height])
  }

  // The lookup used inside a write transaction: it does not consult the third table.
  function GetByHeightWrite(t: Tables, height: Height): Lookup {
    if height !in t.heightToHash then Ok(None)
    else if t.heightToHash[height] !in t.headers then Err(HeaderMissing(height))
    else Ok(Some(Stored(t.headers[t.heightToHash[height]], height, t.heightToHash[height])))
  }

  // Remove the headers at `from`, `from - 1`, ..., `to`; a height without a header is passed over.
  function DisconnectRange(t: Tables, from: int, to: nat): Result<(Tables, seq<Hash>), Corruption>
    requires from < U32
    decreases from
  {
    if from < to then Ok((t, []))
    else match GetByHeightWrite(t, from)
      case Err(e) => Err(e)
      case Ok(None) => DisconnectRange(t, from - 1, to)
      case Ok(Some(stored)) =>
        match DisconnectRange(Remove(t, stored.hash), from - 1, to)
        case Err(e) => Err(e)
        case Ok((u, removed)) => Ok((u, [stored.hash] + removed))
  }

  function InsertAll(t: Tables, batch: seq<(Header, Height)>): Tables
    decreases batch
  {
    if batch == [] then t else InsertAll(Insert(t, batch[0].0, batch[0].1), batch[1..])
  }

  // ---- Consistency ----

  // Every height names a header that is present and whose own height points back.
  ghost predicate Consistent(t: Tables) {
    && (forall h :: h in t.heightToHash ==> t.heightToHash[h] in t.headers && t.heightToHash[h] in t.hashToHeight)
    && (forall h :: h in t.heightToHash ==> t.hashToHeight[t.heightToHash[h]] == h)
    && (forall x :: x in t.headers ==> t.headers[x].BlockHash() == x)
  }

  // A consistent table has no lookup errors, and finds at each height what is filed there.
  lemma LookupsAgree(t: Tables, h: Height)
    requires Consistent(t)
    ensures GetByHeight(t, h) == GetByHeightWrite(t, h)
    ensures GetByHeight(t, h).Ok? && (GetByHeight(t, h).value.Some? <==> h in t.heightToHash)
    ensures h in t.heightToHash ==>
              var hash := t.heightToHash[h];
              && GetByHeight(t, h).value.value.hash == hash
              && GetByHash(t, hash) == GetByHeight(t, h)
              && GetByHash(t, hash).value.value.height == h
  {
  }

  // Inserting a header keeps the tables consistent exactly when it is not filed at another height.
  lemma InsertKeepsConsistentExactlyWhen(t: Tables, header: Header, height: Height)
    requires Consistent(t)
    ensures Consistent(Insert(t, header, height)) <==>
              forall h :: h in t.heightToHash && t.heightToHash[h] == header.BlockHash() ==> h == height
  {
    var u := Insert(t, header, height);
    if h :| h in t.heightToHash && t.heightToHash[h] == header.BlockHash() && h != height {
      assert u.heightToHash[h] == header.BlockHash() && u.hashToHeight[header.BlockHash()] == height;
    }
  }

  lemma RemoveKeepsConsistent(t: Tables, hash: Hash)
    requires Consistent(t)
    ensures Consistent(Remove(t, hash))
  {
    var u := Remove(t, hash);
    forall h | h in u.heightToHash ensures u.heightToHash[h] != hash {
      assert t.hashToHeight[t.heightToHash[h]] == h;
    }
  }

  // Inserting the header just removed gives the tables back.
  lemma InsertUndoesRemove(t: Tables, h: Height)
    requires Consistent(t) && h in t.heightToHash
    ensures Insert(Remove(t, t.heightToHash[h]), t.headers[t.heightToHash[h]], h) == t
  {
    var x := t.heightToHash[h];
    var u := Insert(Remove(t, x), t.headers[x], h);
    assert u.headers == t.headers;
    assert u.heightToHash == t.heightToHash;
    assert u.hashToHeight == t.hashToHeight;
  }

  // ---- Disconnecting and connecting ----

  // The hashes filed at `from`, `from - 1`, ..., `to`.
  function HashesDown(m: map<Height, Hash>, from: int, to: nat): seq<Hash>
    requires from < U32
    decreases from
  {
    if from < to then []
    else (if from in m then [m[from]] else []) + HashesDown(m, from - 1, to)
  }

  lemma {:induction false} HashesDownFrame(m: map<Height, Hash>, n: map<Height, Hash>, from: int, to: nat)
    requires from < U32
    requires forall h: Height :: h <= from ==> (h in m <==> h in n) && (h in m ==> m[h] == n[h])
    ensures HashesDown(m, from, to) == HashesDown(n, from, to)
    decreases from
  {
    if from >= to {
      HashesDownFrame(m, n, from - 1, to);
    }
  }

  // Disconnecting a range of a consistent table never fails, removes just the heights of the range
  // and answers their hashes, newest first.
  lemma {:induction false} DisconnectRemoves(t: Tables, from: int, to: nat)
    requires Consistent(t) && from < U32
    ensures DisconnectRange(t, from, to).Ok?
    ensures var (u, removed) := DisconnectRange(t, from, to).value;
            && Consistent(u) && removed == HashesDown(t.heightToHash, from, to)
            && (forall h: Height :: h in u.heightToHash <==> h in t.heightToHash && !(to <= h <= from))
            && (forall h: Height :: h in u.heightToHash ==> u.heightToHash[h] == t.heightToHash[h])
    decreases from
  {
    hide Consistent, Remove;
    if from >= to {
      LookupsAgree(t, from);
      if from in t.heightToHash {
        var hash := t.heightToHash[from];
        RemoveKeepsConsistent(t, hash);
        RemovedHeight(t, from);
        var u := Remove(t, hash);
        DisconnectRemoves(u, from - 1, to);
        HashesDownFrame(u.heightToHash, t.heightToHash, from - 1, to);
      } else {
        DisconnectRemoves(t, from - 1, to);
      }
    }
  }

  lemma RemovedHeight(t: Tables, h: Height)
    requires Consistent(t) && h in t.heightToHash
    ensures Remove(t, t.heightToHash[h]).heightToHash == t.heightToHash - {h}
  {
  }

  // What was answered is not found by its hash any more, and everything else as before.
  lemma {:induction false} DisconnectForgets(t: Tables, from: int, to: nat, x: Hash)
    requires Consistent(t) && from < U32 && DisconnectRange(t, from, to).Ok?
    ensures
      var (u, removed) := DisconnectRange(t, from, to).value;
      GetByHash(u, x) == if x in removed then Ok(None) else GetByHash(t, x)
    decreases from
  {
    hide Consistent, Remove, GetByHash;
    if from >= to {
      LookupsAgree(t, from);
      if from in t.heightToHash {
        var hash := t.heightToHash[from];
        RemoveKeepsConsistent(t, hash);
        RemoveForgets(t, hash, x);
        DisconnectRemoves(Remove(t, hash), from - 1, to);
        DisconnectForgets(Remove(t, hash), from - 1, to, x);
      } else {
        DisconnectRemoves(t, from - 1, to);
        DisconnectForgets(t, from - 1, to, x);
      }
    }
  }

  // A removed header is not found by its hash any more, and nothing is found at the height recorded for
  // it; all other lookups answer as before.
  lemma RemoveForgets(t: Tables, hash: Hash, x: Hash)
    requires Consistent(t)
    ensures GetByHash(Remove(t, hash), x) == if x == hash then Ok(None) else GetByHash(t, x)
    ensures forall h: Height :: GetByHeight(Remove(t, hash), h) ==
              if hash in t.hashToHeight && t.hashToHeight[hash] == h then Ok(None) else GetByHeight(t, h)
  {
  }

  // An inserted header is found by its hash and at its height, and all others as before.
  lemma InsertFinds(t: Tables, header: Header, height: Height, x: Hash)
    ensures
      var u, hash := Insert(t, header, height), header.BlockHash();
      && GetByHash(u, x) == (if x == hash then Ok(Some(Stored(header, height, hash))) else GetByHash(t, x))
      && GetByHeight(u, height) == Ok(Some(Stored(header, height, hash)))
      && forall h: Height :: h != height && !(h in t.heightToHash && t.heightToHash[h] == hash) ==>
           GetByHeight(u, h) == GetByHeight(t, h)
  {
    hide GetByHash;
    LookupInserted(t, header, height, header.BlockHash());
    forall y | y != header.BlockHash() ensures GetByHash(Insert(t, header, height), y) == GetByHash(t, y) {
      LookupInserted(t, header, height, y);
    }
  }

  lemma LookupInserted(t: Tables, header: Header, height: Height, x: Hash)
    ensures GetByHash(Insert(t, header, height), x) ==
            if x == header.BlockHash() then Ok(Some(Stored(header, height, x))) else GetByHash(t, x)
  {
  }

  // A batch of headers at consecutive heights.
  ghost predicate Consecutive(batch: seq<(Header, Height)>, first: nat) {
    forall i :: 0 <= i < |batch| ==> batch[i].1 == first + i
  }

  // No header of the batch is filed at, or comes again for, another height.
  ghost predicate OwnHeights(t: Tables, batch: seq<(Header, Height)>) {
    && (forall i, h :: 0 <= i < |batch| && h in t.heightToHash && t.heightToHash[h] == batch[i].0.BlockHash() ==>
          h == batch[i].1)
    && (forall i, j :: 0 <= i < j < |batch| ==> batch[i].0.BlockHash() != batch[j].0.BlockHash())
  }

  // Going from `m` to `u`, the batch is filed at its heights, and nothing else changes.
  ghost predicate Files(m: map<Height, Hash>, u: map<Height, Hash>, batch: seq<(Header, Height)>, first: nat) {
    && (forall h: Height :: h in u <==> h in m || first <= h < first + |batch|)
    && (forall h: Height :: h in u ==>
          u[h] == if first <= h < first + |batch| then batch[h - first].0.BlockHash() else m[h])
  }

  lemma {:induction false} InsertAllFiles(t: Tables, batch: seq<(Header, Height)>, first: nat)
    requires Consistent(t) && Consecutive(batch, first) && OwnHeights(t, batch)
    ensures Consistent(InsertAll(t, batch))
    ensures Files(t.heightToHash, InsertAll(t, batch).heightToHash, batch, first)
    decreases batch
  {
    hide Consistent, Insert, Files, OwnHeights, Consecutive;
    if batch == [] {
      FilesNothing(t.heightToHash, first);
    } else {
      var v := Insert(t, batch[0].0, batch[0].1);
      OwnHeightsRest(t, batch, first);
      InsertKeepsConsistentExactlyWhen(t, batch[0].0, batch[0].1);
      InsertAllFiles(v, batch[1..], first + 1);
      FilesOneMore(t, InsertAll(t, batch).heightToHash, batch, first);
    }
  }

  lemma FilesNothing(m: map<Height, Hash>, first: nat)
    ensures Files(m, m, [], first)
  {
  }

  lemma OwnHeightsRest(t: Tables, batch: seq<(Header, Height)>, first: nat)
    requires batch != [] && Consecutive(batch, first) && OwnHeights(t, batch)
    ensures forall h :: h in t.heightToHash && t.heightToHash[h] == batch[0].0.BlockHash() ==> h == batch[0].1
    ensures Consecutive(batch[1..], first + 1) && OwnHeights(Insert(t, batch[0].0, batch[0].1), batch[1..])
  {
    var v, rest := Insert(t, batch[0].0, batch[0].1), batch[1..];
    forall i, h | 0 <= i < |rest| && h in v.heightToHash && v.heightToHash[h] == rest[i].0.BlockHash()
      ensures h == rest[i].1
    {
      assert rest[i] == batch[i + 1];
    }
  }

  lemma FilesOneMore(t: Tables, u: map<Height, Hash>, batch: seq<(Header, Height)>, first: nat)
    requires batch != [] && Consecutive(batch, first)
    requires Files(Insert(t, batch[0].0, batch[0].1).heightToHash, u, batch[1..], first + 1)
    ensures Files(t.heightToHash, u, batch, first)
  {
    var m := t.heightToHash[batch[0].1 := batch[0].0.BlockHash()];
    assert batch[0].1 == first;
    forall h: Height | h in u
      ensures u[h] == if first <= h < first + |batch| then batch[h - first].0.BlockHash() else t.heightToHash[h]
    {
      if first < h < first + |batch| {
        assert batch[1..][h - (first + 1)] == batch[h - first];
      }
    }
  }

  // ---- Reorganising ----

  function Reorganized(t: Tables, current: Height, fork: nat,
                       batch: seq<(Header, Height)>): Result<(Tables, seq<Hash>), Corruption> {
    match DisconnectRange(t, current, fork + 1)
    case Err(e) => Err(e)
    case Ok((u, removed)) => Ok((InsertAll(u, batch), removed))
  }

  // The tables hold exactly this chain, from height 1 on.
  ghost predicate HoldsChain(t: Tables, chain: seq<Hash>) {
    && |chain| < U32
    && (forall h: Height :: h in t.heightToHash <==> 1 <= h <= |chain|)
    && (forall h: Height :: 1 <= h <= |chain| ==> t.heightToHash[h] == chain[h - 1])
  }

  function Hashes(batch: seq<(Header, Height)>): (s: seq<Hash>)
    ensures |s| == |batch| && forall i :: 0 <= i < |batch| ==> s[i] == batch[i].0.BlockHash()
  {
    seq(|batch|, i requires 0 <= i < |batch| => batch[i].0.BlockHash())
  }

  function Reversed(s: seq<Hash>): seq<Hash> {
    if s == [] then [] else Reversed(s[1..]) + [s[0]]
  }

  // A reorganisation keeps the first `fork` headers, appends the new ones and answers the removed
  // ones, newest first.
  lemma ReorganizeRefinesChain(t: Tables, chain: seq<Hash>, fork: nat, batch: seq<(Header, Height)>)
    requires Consistent(t) && HoldsChain(t, chain) && fork <= |chain| < U32
    requires Consecutive(batch, fork + 1) && fork + |batch| < U32
    requires OwnHeights(t, batch)
    ensures Reorganized(t, |chain|, fork, batch).Ok?
    ensures var (u, removed) := Reorganized(t, |chain|, fork, batch).value;
            Consistent(u) && HoldsChain(u, chain[..fork] + Hashes(batch)) && removed == Reversed(chain[fork..])
  {
    hide Consistent, HoldsChain, DisconnectRange, InsertAll, Files, HashesDown, OwnHeights, Consecutive, Hashes;
    DisconnectRemoves(t, |chain|, fork + 1);
    var (u, removed) := DisconnectRange(t, |chain|, fork + 1).value;
    FewerOwnHeights(t, u, batch);
    InsertAllFiles(u, batch, fork + 1);
    HashesDownReverse(t, chain, fork, |chain|);
    assert chain[fork..|chain|] == chain[fork..];
    ChainKept(t, u, chain, fork);
    ChainExtended(u, InsertAll(u, batch), chain[..fork], batch);
  }

  lemma FewerOwnHeights(t: Tables, u: Tables, batch: seq<(Header, Height)>)
    requires OwnHeights(t, batch)
    requires forall h: Height :: h in u.heightToHash ==> h in t.heightToHash && u.heightToHash[h] == t.heightToHash[h]
    ensures OwnHeights(u, batch)
  {
  }

  lemma ChainKept(t: Tables, u: Tables, chain: seq<Hash>, fork: nat)
    requires HoldsChain(t, chain) && fork <= |chain|
    requires forall h: Height :: h in u.heightToHash <==> h in t.heightToHash && !(fork + 1 <= h <= |chain|)
    requires forall h: Height :: h in u.heightToHash ==> u.heightToHash[h] == t.heightToHash[h]
    ensures HoldsChain(u, chain[..fork])
  {
  }

  lemma ChainExtended(u: Tables, v: Tables, chain: seq<Hash>, batch: seq<(Header, Height)>)
    requires HoldsChain(u, chain) && |chain| + |batch| < U32
    requires Files(u.heightToHash, v.heightToHash, batch, |chain| + 1)
    ensures HoldsChain(v, chain + Hashes(batch))
  {
    var now := chain + Hashes(batch);
    forall h: Height | 1 <= h <= |now| ensures v.heightToHash[h] == now[h - 1] {
      if h > |chain| {
        assert now[h - 1] == Hashes(batch)[h - 1 - |chain|];
      }
    }
  }

  lemma {:induction false} HashesDownReverse(t: Tables, chain: seq<Hash>, fork: nat, top: nat)
    requires HoldsChain(t, chain) && fork <= top <= |chain|
    ensures HashesDown(t.heightToHash, top, fork + 1) == Reversed(chain[fork..top])
    decreases top
  {
    if top > fork {
      HashesDownReverse(t, chain, fork, top - 1);
      assert chain[fork..top] == chain[fork..top - 1] + [chain[top - 1]];
      ReversedPush(chain[fork..top - 1], chain[top - 1]);
    }
  }

  lemma {:induction false} ReversedPush(s: seq<Hash>, x: Hash)
    ensures Reversed(s + [x]) == [x] + Reversed(s)
  {
    if s == [] {
      assert [x][1..] == [];
    } else {
      assert (s + [x])[1..] == s[1..] + [x];
      ReversedPush(s[1..], x);
    }
  }

  // ---- Keys in byte order ----

  function BigEndian(h: Height): (s: seq<Byte>)
    ensures |s| == 4
  {
    [h / 0x100_0000, h / 0x1_0000 % 256, h / 256 % 256, h % 256]
  }

  predicate BytesLess(a: seq<Byte>, b: seq<Byte>) {
    if a == [] then b != []
    else b != [] && (a[0] < b[0] || (a[0] == b[0] && BytesLess(a[1..], b[1..])))
  }

  // Keys sort as the numbers they encode.
  lemma KeyOrderIsNumeric(a: Height, b: Height)
    ensures BytesLess(BigEndian(a), BigEndian(b)) <==> a < b
  {
    BytesLessUnfolds(BigEndian(a), BigEndian(b));
    LastByteDecides(a, b);
    LastByteDecides(a / 256, b / 256);
    LastByteDecides(a / 0x1_0000, b / 0x1_0000);
    assert a / 256 / 256 == a / 0x1_0000 && b / 256 / 256 == b / 0x1_0000;
    assert a / 0x1_0000 / 256 == a / 0x100_0000 && b / 0x1_0000 / 256 == b / 0x100_0000;
  }

  lemma LastByteDecides(a: nat, b: nat)
    ensures a < b <==> a / 256 < b / 256 || (a / 256 == b / 256 && a % 256 < b % 256)
    ensures a == b <==> a / 256 == b / 256 && a % 256 == b % 256
  {
  }

  lemma BytesLessUnfolds(s: seq<Byte>, t: seq<Byte>)
    requires |s| == |t| == 4
    ensures BytesLess(s, t) <==>
              || s[0] < t[0]
              || (s[0] == t[0] && s[1] < t[1])
              || (s[0] == t[0] && s[1] == t[1] && s[2] < t[2])
              || (s[0] == t[0] && s[1] == t[1] && s[2] == t[2] && s[3] < t[3])
  {
    assert s[1..][1..] == s[2..] && t[1..][1..] == t[2..];
    assert s[2..][1..] == s[3..] && t[2..][1..] == t[3..];
    assert s[3..][1..] == [] && t[3..][1..] == [];
    assert BytesLess(s[3..], t[3..]) <==> s[3] < t[3];
    assert BytesLess(s[2..], t[2..]) <==> s[2] < t[2] || (s[2] == t[2] && s[3] < t[3]);
  }
}
