// The claim tracker of chain/onchaintx.rs as functions on a value: what each operation does to the
// four linked collections. A result of `None` stands for a panic.
module ClaimState {
  import opened Common
  import opened Packages

  const ANTI_REORG_DELAY: nat := 6

  type ClaimId = nat

  datatype Event = Claimed(id: ClaimId) | Contentious(package: Piece)

  datatype Entry = Entry(txid: nat, height: nat, blockHash: nat, event: Event)

  datatype Tx = Tx(txid: nat, inputs: seq<OutPoint>)

  // Packages waiting for a locktime, grouped by it, in ascending order.
  type Queue = seq<(nat, seq<Package>)>

  datatype State = State(pending: map<ClaimId, Package>,
                         claimable: map<OutPoint, (ClaimId, nat)>,
                         locktimed: Queue,
                         events: seq<Entry>)

  const EMPTY := State(map[], map[], [], [])

  datatype Claim = Claim(timer: nat, feerate: nat, id: ClaimId)

  // Building and signing a claim transaction: given the height and the package, a claim or nothing.
  type Oracle = (nat, Package) -> Option<Claim>

  // ---- Generating a claim ----

  predicate HasConfirmedSpend(s: State, o: OutPoint) {
    o in s.claimable &&
    exists i :: 0 <= i < |s.events| && s.events[i].event == Claimed(s.claimable[o].0)
  }

  function GenerateClaim(s: State, request: Package, height: nat, oracle: Oracle): Option<Claim> {
    if request.inputs == [] then None
    else if forall i :: 0 <= i < |request.inputs| ==> HasConfirmedSpend(s, request.inputs[i].0) then None
    else oracle(height, request)
  }

  // The request with the timer and feerate of the claim generated for it, if there is one.
  function Bumped(s: State, request: Package, height: nat, oracle: Oracle): Package {
    match GenerateClaim(s, request, height, oracle)
    case None => request
    case Some(c) => request.(timer := c.timer, feerate := c.feerate)
  }

  // ---- The timelock queue ----

  function Enqueue(q: Queue, key: nat, p: Package): Queue {
    if q == [] || key < q[0].0 then [(key, [p])] + q
    else if key == q[0].0 then [(key, q[0].1 + [p])] + q[1..]
    else [q[0]] + Enqueue(q[1..], key, p)
  }

  // Split `o` off every package: what stays, and the pieces taken out.
  function SplitPackages(ps: seq<Package>, o: OutPoint): (seq<Package>, seq<Piece>) {
    if ps == [] then ([], [])
    else
      var (kept, pieces) := SplitPackages(ps[1..], o);
      var rest, piece := SplitRest(ps[0], o), SplitPiece(ps[0], o);
      ((if rest.inputs == [] then [] else [rest]) + kept,
       (if piece.None? then [] else [piece.value]) + pieces)
  }

  function SplitQueue(q: Queue, o: OutPoint): (Queue, seq<Piece>) {
    if q == [] then ([], [])
    else
      var (kept, pieces) := SplitPackages(q[0].1, o);
      var (queue, more) := SplitQueue(q[1..], o);
      ((if kept == [] then [] else [(q[0].0, kept)]) + queue, pieces + more)
  }

  // The packages whose key is at most `height`, and the queue without them.
  function PopReady(q: Queue, height: nat): (seq<Package>, Queue) {
    if q == [] then ([], [])
    else
      var (ready, rest) := PopReady(q[1..], height);
      if q[0].0 <= height then (q[0].1 + ready, rest) else (ready, [q[0]] + rest)
  }

  // ---- Registering claim requests ----

  predicate LockedTwin(q: Queue, req: Package) {
    exists i, j :: 0 <= i < |q| && 0 <= j < |q[i].1| && Outpoints(q[i].1[j].inputs) == Outpoints(req.inputs)
  }

  predicate IsDuplicate(s: State, req: Piece) {
    req.inputs[0].0 in s.claimable || LockedTwin(s.locktimed, req)
  }

  function DropDuplicates(s: State, reqs: seq<Piece>): seq<Package> {
    if reqs == [] then []
    else if IsDuplicate(s, reqs[0]) then DropDuplicates(s, reqs[1..])
    else [reqs[0]] + DropDuplicates(s, reqs[1..])
  }

  // Try to merge request `i` into one of the requests `j..i`.
  function MergeDown(reqs: seq<Package>, i: nat, j: nat, height: nat): seq<Package>
    requires j <= i < |reqs|
    decreases i - j
  {
    if j == i then reqs
    else if CanMergeWith(reqs[i], reqs[j], height) then
      match Merge(reqs[j], reqs[i], height)
      case Some(m) => (reqs[..i] + reqs[i + 1..])[j := m]
      case None => MergeDown(reqs, i, j + 1, height)
    else MergeDown(reqs, i, j + 1, height)
  }

  // Aggregate requests `i`, `i - 1`, ..., `1` in turn.
  function Aggregate(reqs: seq<Package>, i: nat, height: nat): seq<Package>
    requires i < |reqs| || i == 0
    decreases i
  {
    if i == 0 then reqs
    else
      MergeDownLength(reqs, i, 0, height);
      Aggregate(MergeDown(reqs, i, 0, height), i - 1, height)
  }

  lemma MergeDownLength(reqs: seq<Package>, i: nat, j: nat, height: nat)
    requires j <= i < |reqs|
    ensures i <= |MergeDown(reqs, i, j, height)| <= |reqs|
    decreases i - j
  {
  }

  // Timelocked requests go to the queue, the others are ready now.
  function SplitByLocktime(reqs: seq<Package>, q: Queue, height: nat): (seq<Package>, Queue) {
    if reqs == [] then ([], q)
    else
      var locktime := PackageLocktime(reqs[0], height);
      if locktime > height then SplitByLocktime(reqs[1..], Enqueue(q, locktime, reqs[0]), height)
      else
        var (ready, queue) := SplitByLocktime(reqs[1..], q, height);
        ([reqs[0]] + ready, queue)
  }

  // Everything that is claimed now, and the queue that remains.
  function Preprocess(s: State, reqs: seq<Piece>, height: nat): (seq<Package>, Queue) {
    var kept := DropDuplicates(s, reqs);
    var merged := Aggregate(kept, if kept == [] then 0 else |kept| - 1, height);
    var (now, queue) := SplitByLocktime(merged, s.locktimed, height);
    var (popped, rest) := PopReady(queue, height);
    (now + popped, rest)
  }

  function CreationHeight(d: Solving, confHeight: nat): nat {
    match d.confirmationHeight
    case None => confHeight
    case Some(h) => h
  }

  // Point every outpoint of a registered request at its claim.
  function Link(m: map<OutPoint, (ClaimId, nat)>, inputs: Inputs, id: ClaimId, confHeight: nat): map<OutPoint,
                (ClaimId, nat)>
    decreases inputs
  {
    if inputs == [] then m
    else Link(m[inputs[0].0 := (id, CreationHeight(inputs[0].1, confHeight))], inputs[1..], id, confHeight)
  }

  function RegisterOne(s: State, req: Package, confHeight: nat, curHeight: nat, oracle: Oracle): State {
    match GenerateClaim(s, req, curHeight, oracle)
    case None => s
    case Some(c) =>
      s.(claimable := Link(s.claimable, req.inputs, c.id, confHeight),
         pending := s.pending[c.id := req.(timer := c.timer, feerate := c.feerate)])
  }

  function RegisterAll(s: State, reqs: seq<Package>, confHeight: nat, curHeight: nat, oracle: Oracle): State
    decreases reqs
  {
    if reqs == [] then s
    else RegisterAll(RegisterOne(s, reqs[0], confHeight, curHeight, oracle), reqs[1..], confHeight, curHeight, oracle)
  }

  function Register(s: State, reqs: seq<Piece>, confHeight: nat, curHeight: nat, oracle: Oracle): State {
    var (ready, queue) := Preprocess(s, reqs, curHeight);
    RegisterAll(s.(locktimed := queue), ready, confHeight, curHeight, oracle)
  }

  // ---- Seeing outpoints spent ----

  function Record(events: seq<Entry>, e: Entry): seq<Entry> {
    if e in events then events else events + [e]
  }

  // The scan of one transaction: the state, the pieces split off so far, the requests to bump.
  datatype Scan = Scan(s: State, pieces: seq<Piece>, bumps: map<ClaimId, Package>)

  // Split every input of the transaction off one request.
  function SplitInputs(request: Package, events: seq<Entry>, pieces: seq<Piece>, os: seq<OutPoint>, claimed: Entry)
    : (Package, seq<Entry>, seq<Piece>)
    decreases os
  {
    if os == [] then (request, events, pieces)
    else
      var piece, rest := SplitPiece(request, os[0]), SplitRest(request, os[0]);
      SplitInputs(rest,
                  if rest.inputs == [] then Record(events, claimed) else events,
                  if piece.None? then pieces else pieces + [piece.value],
                  os[1..], claimed)
  }

  predicate CoveredBy(request: Package, tx: Tx) {
    forall i :: 0 <= i < |request.inputs| ==> request.inputs[i].0 in tx.inputs
  }

  // What an input does to the pending request tracking its outpoint.
  function SpendRequest(c: Scan, tx: Tx, o: OutPoint, height: nat, hash: nat): Option<Scan> {
    if o !in c.s.claimable then Some(c)
    else
      var id := c.s.claimable[o].0;
      if id !in c.s.pending then None
      else
        var request := c.s.pending[id];
        var claimed := Entry(tx.txid, height, hash, Claimed(id));
        if CoveredBy(request, tx) then
          Some(c.(s := c.s.(events := Record(c.s.events, claimed))))
        else
          var (rest, events, pieces) := SplitInputs(request, c.s.events, c.pieces, tx.inputs, claimed);
          Some(Scan(c.s.(pending := c.s.pending[id := rest], events := events), pieces,
                    if |pieces| > |c.pieces| then c.bumps[id := rest] else c.bumps))
  }

  // What an input does to the timelock queue.
  function SpendQueued(c: Scan, o: OutPoint): Scan {
    var (queue, more) := SplitQueue(c.s.locktimed, o);
    c.(s := c.s.(locktimed := queue), pieces := c.pieces + more)
  }

  function SpendInputs(c: Scan, tx: Tx, os: seq<OutPoint>, height: nat, hash: nat): Option<Scan>
    decreases os
  {
    if os == [] then Some(c)
    else match SpendRequest(c, tx, os[0], height, hash)
      case None => None
      case Some(d) => SpendInputs(SpendQueued(d, os[0]), tx, os[1..], height, hash)
  }

  function RecordPieces(events: seq<Entry>, pieces: seq<Piece>, tx: Tx, height: nat, hash: nat): seq<Entry>
    decreases pieces
  {
    if pieces == [] then events
    else RecordPieces(Record(events, Entry(tx.txid, height, hash, Contentious(pieces[0]))), pieces[1..], tx, height,
        hash)
  }

  function SpendTx(s: State, bumps: map<ClaimId, Package>, tx: Tx, height: nat,
                   hash: nat): Option<(State, map<ClaimId, Package>)> {
    match SpendInputs(Scan(s, [], bumps), tx, tx.inputs, height, hash)
    case None => None
    case Some(c) => Some((c.s.(events := RecordPieces(c.s.events, c.pieces, tx, height, hash)), c.bumps))
  }

  function SpendTxs(s: State, bumps: map<ClaimId, Package>, txs: seq<Tx>, height: nat,
                    hash: nat): Option<(State, map<ClaimId, Package>)>
    decreases txs
  {
    if txs == [] then Some((s, bumps))
    else match SpendTx(s, bumps, txs[0], height, hash)
      case None => None
      case Some(r) => SpendTxs(r.0, r.1, txs[1..], height, hash)
  }

  // ---- Maturing ----

  predicate HasMatured(e: Entry, height: nat) {
    height >= e.height + ANTI_REORG_DELAY - 1
  }

  function MatureOne(s: State, e: Entry): State {
    match e.event
    case Claimed(id) =>
      if id in s.pending then
        s.(pending := s.pending - {id},
           claimable := s.claimable - (set i | 0 <= i < |s.pending[id].inputs| :: s.pending[id].inputs[i].0))
      else s
    case Contentious(p) => s.(claimable := s.claimable - {p.inputs[0].0})
  }

  function Mature(s: State, todo: seq<Entry>, height: nat): State
    decreases todo
  {
    if todo == [] then s
    else if HasMatured(todo[0], height) then Mature(MatureOne(s, todo[0]), todo[1..], height)
    else Mature(s.(events := s.events + [todo[0]]), todo[1..], height)
  }

  // Requests whose timer has run out join the bump candidates, and each candidate is regenerated.
  function Rebump(s: State, bumps: map<ClaimId, Package>, height: nat, oracle: Oracle): State {
    var due := map id | id in s.pending && height >= s.pending[id].timer :: s.pending[id];
    s.(pending := map id | id in s.pending ::
                    if id in bumps + due then
                      match GenerateClaim(s, (bumps + due)[id], height, oracle)
                      case None => s.pending[id]
                      case Some(c) => s.pending[id].(timer := c.timer, feerate := c.feerate)
                    else s.pending[id])
  }

  function Matched(s: State, txs: seq<Tx>, confHeight: nat, hash: nat, curHeight: nat, oracle: Oracle): Option<State> {
    match SpendTxs(s, map[], txs, confHeight, hash)
    case None => None
    case Some((t, bumps)) =>
      Some(Rebump(Mature(t.(events := []), t.events, curHeight), bumps, curHeight, oracle))
  }

  // ---- Undoing on a reorganisation ----

  // Undo one event if it happened above `height`. A split-off outpoint goes back to the timelock
  // queue when its locktime is not reached any more, and otherwise into the request tracking it.
  function UndoOne(s: State, bumps: map<ClaimId, Package>, e: Entry,
                   height: nat): Option<(State, map<ClaimId, Package>)> {
    if e.height <= height then Some((s.(events := s.events + [e]), bumps))
    else match e.event
      case Claimed(_) => Some((s, bumps))
      case Contentious(p) =>
        var locktime := PackageLocktime(p, 0);
        var o := p.inputs[0].0;
        if locktime > height then
          Some((s.(locktimed := Enqueue(s.locktimed, locktime, p)), bumps))
        else if o in s.claimable && s.claimable[o].0 in s.pending then
          var id := s.claimable[o].0;
          match Merge(s.pending[id], p, height + 1)
          case None => None
          case Some(m) => Some((s.(pending := s.pending[id := m]), bumps[id := m]))
        else Some((s, bumps))
  }

  function Undo(s: State, bumps: map<ClaimId, Package>, todo: seq<Entry>,
                height: nat): Option<(State, map<ClaimId, Package>)>
    decreases todo
  {
    if todo == [] then Some((s, bumps))
    else match UndoOne(s, bumps, todo[0], height)
      case None => None
      case Some(r) => Undo(r.0, r.1, todo[1..], height)
  }

  function Restore(s: State, bumps: map<ClaimId, Package>, height: nat, oracle: Oracle): State {
    s.(pending := s.pending + map id | id in bumps :: Bumped(s, bumps[id], height, oracle))
  }

  // Erase what was created above `height`.
  function Erase(s: State, height: nat): State {
    var gone := set o | o in s.claimable && s.claimable[o].1 > height :: s.claimable[o].0;
    s.(claimable := map o | o in s.claimable && s.claimable[o].1 <= height :: s.claimable[o],
       pending := s.pending - gone)
  }

  function Disconnect(s: State, height: nat, oracle: Oracle): Option<State> {
    match Undo(s.(events := []), map[], s.events, height)
    case None => None
    case Some((t, bumps)) => Some(Erase(Restore(t, bumps, height, oracle), height))
  }

  // The height of the first event a transaction caused.
  function FirstHeight(events: seq<Entry>, txid: nat): Option<nat> {
    if events == [] then None
    else if events[0].txid == txid then Some(events[0].height)
    else FirstHeight(events[1..], txid)
  }

  function Unconfirm(s: State, txid: nat, oracle: Oracle): Option<State> {
    match FirstHeight(s.events, txid)
    case None => Some(s)
    case Some(h) => if h == 0 then None else Disconnect(s, h - 1, oracle)
  }

  // ---- Abandoning a claim ----

  // `found` is the claim the search for `o` ended at, if it found one.
  ghost predicate FindsClaim(s: State, o: OutPoint, found: Option<ClaimId>) {
    if o in s.claimable then found == Some(s.claimable[o].0)
    else match found
      case Some(id) => id in s.pending && Holds(s.pending[id], o)
      case None => forall id :: id in s.pending ==> !Holds(s.pending[id], o)
  }

  function DropHolding(ps: seq<Package>, o: OutPoint): seq<Package> {
    if ps == [] then []
    else (if Holds(ps[0], o) then [] else [ps[0]]) + DropHolding(ps[1..], o)
  }

  function DropFromQueue(q: Queue, o: OutPoint): Queue {
    if q == [] then [] else [(q[0].0, DropHolding(q[0].1, o))] + DropFromQueue(q[1..], o)
  }

  function Abandon(s: State, o: OutPoint, found: Option<ClaimId>): State {
    match found
    case None => s.(locktimed := DropFromQueue(s.locktimed, o))
    case Some(id) =>
      if id in s.pending then
        s.(pending := s.pending - {id},
           claimable := s.claimable - (set i | 0 <= i < |s.pending[id].inputs| :: s.pending[id].inputs[i].0))
      else s
  }
}
