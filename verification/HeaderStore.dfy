// The header store of wolfe-store: transactions over three tables and the sync progress, and the
// store's batched operations.
module HeaderStore {
  import opened Common
  import opened HeaderTables

  datatype StoreError = Failed | Corrupt(what: Corruption)

  // A write transaction. What it does to the tables becomes visible when it is committed.
  class WriteTransaction {
    var headers: map<Hash, Header>
    var heightToHash: map<Height, Hash>
    var hashToHeight: map<Hash, Height>
    var syncHeight: Option<Height>
    var syncHash: Option<Hash>

    function View(): Tables
      reads this
    {
      Tables(headers, heightToHash, hashToHeight)
    }

    constructor (store: NodeStore)
      ensures View() == store.View() && syncHeight == store.syncHeight && syncHash == store.syncHash
    {
      headers, heightToHash, hashToHeight := store.headers, store.heightToHash, store.hashToHeight;
      syncHeight, syncHash := store.syncHeight, store.syncHash;
    }

    method Insert(header: Header, height: Height)
      modifies this`headers, this`heightToHash, this`hashToHeight
      ensures View() == HeaderTables.Insert(old(View()), header, height)
    {
      var hash := header.BlockHash();
      headers := headers[hash := header];
      heightToHash := heightToHash[height := hash];
      hashToHeight := hashToHeight[hash := height];
    }

    method Remove(hash: Hash)
      modifies this`headers, this`heightToHash, this`hashToHeight
      ensures View() == HeaderTables.Remove(old(View()), hash)
    {
      var height: Option<Height> := if hash in hashToHeight then Some(hashToHeight[hash]) else None;
      headers := headers - {hash};
      hashToHeight := hashToHeight - {hash};
      if height.Some? {
        heightToHash := heightToHash - {height.value};
      }
    }

    method DisconnectRange(from: Height, to: nat) returns (r: Result<seq<Hash>, Corruption>)
      modifies this`headers, this`heightToHash, this`hashToHeight
      ensures
        match HeaderTables.DisconnectRange(old(View()), from, to)
        case Err(e) => r == Err(e)
        case Ok((t, removed)) => r == Ok(removed) && View() == t
    {
      hide HeaderTables.Remove, GetByHeightWrite;
      var removed := [];
      var h: int := from;
      ghost var whole := HeaderTables.DisconnectRange(View(), from, to);
      AfterNothing(whole);
      while h >= to
        invariant h <= from
        invariant After(removed, HeaderTables.DisconnectRange(View(), h, to)) == whole
      {
        match GetByHeightWrite(View(), h) {
          case Err(e) => return Err(e);
          case Ok(None) =>
          case Ok(Some(stored)) =>
            Remove(stored.hash);
            AfterOne(removed, stored.hash, HeaderTables.DisconnectRange(View(), h - 1, to));
            removed := removed + [stored.hash];
        }
        h := h - 1;
      }
      assert removed + [] == removed;
      return Ok(removed);
    }

    method SetSyncProgress(height: Height, hash: Hash)
      modifies this`syncHeight, this`syncHash
      ensures syncHeight == Some(height) && syncHash == Some(hash)
    {
      syncHeight, syncHash := Some(height), Some(hash);
    }
  }

  // The outcome of a disconnection, with what was removed before it.
  ghost function After(removed: seq<Hash>, r: Result<(Tables, seq<Hash>), Corruption>): Result<(Tables, seq<Hash>),
                       Corruption> {
    match r
    case Err(e) => Err(e)
    case Ok((t, more)) => Ok((t, removed + more))
  }

  lemma AfterNothing(r: Result<(Tables, seq<Hash>), Corruption>)
    ensures After([], r) == r
  {
    if r.Ok? { assert [] + r.value.1 == r.value.1; }
  }

  lemma AfterOne(removed: seq<Hash>, hash: Hash, r: Result<(Tables, seq<Hash>), Corruption>)
    ensures After(removed, After([hash], r)) == After(removed + [hash], r)
  {
    if r.Ok? { assert removed + ([hash] + r.value.1) == removed + [hash] + r.value.1; }
  }

  class NodeStore {
    var headers: map<Hash, Header>
    var heightToHash: map<Height, Hash>
    var hashToHeight: map<Hash, Height>
    var syncHeight: Option<Height>
    var syncHash: Option<Hash>

    function View(): Tables
      reads this
    {
      Tables(headers, heightToHash, hashToHeight)
    }

    constructor ()
      ensures View() == Tables(map[], map[], map[]) && Consistent(View())
      ensures syncHeight == None && syncHash == None
    {
      headers, heightToHash, hashToHeight := map[], map[], map[];
      syncHeight, syncHash := None, None;
    }

    method Commit(txn: WriteTransaction)
      modifies this
      ensures View() == txn.View() && syncHeight == txn.syncHeight && syncHash == txn.syncHash
    {
      headers, heightToHash, hashToHeight := txn.headers, txn.heightToHash, txn.hashToHeight;
      syncHeight, syncHash := txn.syncHeight, txn.syncHash;
    }

    // Store a batch and record its last header as the sync progress. `works` says whether the
    // database accepts the transaction; if not, nothing changes.
    method InsertHeadersBatch(batch: seq<(Header, Height)>, works: bool) returns (ok: bool)
      modifies this
      ensures ok <==> works || batch == []
      ensures View() == if ok then InsertAll(old(View()), batch) else old(View())
      ensures ok && batch != [] ==>
                syncHeight == Some(batch[|batch| - 1].1) && syncHash == Some(batch[|batch| - 1].0.BlockHash())
      ensures !ok || batch == [] ==> syncHeight == old(syncHeight) && syncHash == old(syncHash)
    {
      if batch == [] { return true; }
      if !works { return false; }
      var txn := new WriteTransaction(this);
      InsertEach(txn, batch);
      var (last, height) := batch[|batch| - 1];
      txn.SetSyncProgress(height, last.BlockHash());
      Commit(txn);
      return true;
    }

    static method InsertEach(txn: WriteTransaction, batch: seq<(Header, Height)>)
      modifies txn`headers, txn`heightToHash, txn`hashToHeight
      ensures txn.View() == InsertAll(old(txn.View()), batch)
    {
      hide HeaderTables.Insert;
      var i := 0;
      assert batch[0..] == batch;
      while i < |batch|
        invariant i <= |batch|
        invariant InsertAll(txn.View(), batch[i..]) == InsertAll(old(txn.View()), batch)
      {
        assert batch[i..][0] == batch[i] && batch[i..][1..] == batch[i + 1..];
        txn.Insert(batch[i].0, batch[i].1);
        i := i + 1;
      }
    }

    // Disconnect down to the fork, connect the new headers, and answer what was disconnected. With
    // no new headers the recorded sync hash is all zeros.
    method Reorganize(current: Height, fork: Height, batch: seq<(Header, Height)>, works: bool)
      returns (r: Result<seq<Hash>, StoreError>)
      modifies this
      ensures
        if !works then r == Err(Failed)
        else match Reorganized(old(View()), current, fork, batch)
          case Err(e) => r == Err(Corrupt(e))
          case Ok((t, removed)) =>
            && r == Ok(removed) && View() == t
            && syncHeight == Some(if batch == [] then fork else batch[|batch| - 1].1)
            && syncHash == Some(if batch == [] then Zeros else batch[|batch| - 1].0.BlockHash())
      ensures r.Err? ==> View() == old(View()) && syncHeight == old(syncHeight) && syncHash == old(syncHash)
    {
      if !works { return Err(Failed); }
      var txn := new WriteTransaction(this);
      var disconnected := txn.DisconnectRange(current, fork + 1);
      if disconnected.Err? { return Err(Corrupt(disconnected.error)); }
      InsertEach(txn, batch);
      var newTip: Height, newTipHash := fork, Zeros;
      if batch != [] {
        newTip, newTipHash := batch[|batch| - 1].1, batch[|batch| - 1].0.BlockHash();
      }
      txn.SetSyncProgress(newTip, newTipHash);
      Commit(txn);
      return Ok(disconnected.value);
    }

    // The header filed under the last key in byte order: the greatest height.
    method Tip() returns (r: Lookup)
      ensures heightToHash == map[] ==> r == Ok(None)
      ensures heightToHash != map[] ==>
                exists h :: h in heightToHash && r == GetByHeight(View(), h) && forall k :: k in heightToHash ==> k <= h
    {
      if heightToHash == map[] { return Ok(None); }
      assert heightToHash.Keys != {};
      var last :| last in heightToHash.Keys;
      var todo := heightToHash.Keys;
      while todo != {}
        invariant last in heightToHash && todo <= heightToHash.Keys
        invariant forall k :: k in heightToHash && k !in todo ==> k <= last
        decreases todo
      {
        var k :| k in todo;
        todo := todo - {k};
        KeyOrderIsNumeric(last, k);
        if BytesLess(BigEndian(last), BigEndian(k)) {
          last := k;
        }
      }
      return GetByHash(View(), heightToHash[last]);
    }
  }
}
