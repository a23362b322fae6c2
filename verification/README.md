# Verified models of the Lightning node

This project models the parts of the repository where state is spread over several collections or where
rounding, byte layout or the order of events decides, and proves what those parts promise. Each module
holds the operations as they are in the source (objects with methods that update their fields, loops with
invariants) together with a specification on plain values, and the theorems about that specification.

`dafny verify dfyconfig.toml` checks everything.

## What is modelled

- **Claim tracker** (`Packages`, `ClaimState`, `ClaimInvariant`, `ClaimSpend`, `ClaimMature`, `ClaimReorg`,
  `ClaimTheorems`, `ClaimRegister`, `ClaimRuns`, `ClaimReorgRuns`, `ClaimLinks`, `ClaimFailures`,
  `OnchainTxHandler`). Four linked collections: pending claim requests, claimable outpoints, the timelock queue
  and the events awaiting confirmations. Requests are registered, aggregated and queued; transactions split
  outpoints off; events mature; reorganisations undo; claims are abandoned. A panic of the source is the result
  `None`, and `panicked` in the object's methods. `ClaimAccepted`, `ClaimBlocks`, `ClaimMatched` and
  `ClaimUndone` say exactly what each operation leaves in terms of its inputs (the requests, the
  transactions, the events undone), without the steps that lead there.
- **Blinded payment paths** (`BlindedFees`, `BlindedPayInfo`, `BlindedPathCodec`). The fee arithmetic of the
  "Route Blinding" section of BOLT 4, the folded limits, and the byte format.
- **Header sync** (`HeaderTables`, `HeaderStore`, `ChainSync`, `SyncEngine`). Three tables in write
  transactions, and the engine that follows, rewinds and restarts on them. A hash is idealised: it
  determines its header and ancestry.
- **Mempool and fee estimates** (`MempoolState`, `FeeBuckets`, `Mempool`, `FeeEstimator`).
- **P2P resynchronisation** (`MessageResync`), **chain monitor** (`ChainMonitor`) and **key-value store**
  (`KvStore`).

Generating and signing a claim, validating a block, proof of work, policy checks, curve points, the arrival
of bytes and the success of database writes are parameters, so the results hold for every behaviour of them.

## Where the code falls short of its promise

The exact conditions, and inputs that fail:

- The panic at `deps/lightning-0.2.2/src/chain/onchaintx.rs:1002`, which says the maps are inconsistent, is
  reached exactly when a transaction spends an outpoint linked to a request that is gone
  (`SpendTxsPanicsExactlyWhen`). `StepKeepsLinkedExactlyWhen` says for each operation exactly when it leaves
  no such link: always for registering; when claims mature together with all that is linked to them, for a
  block; when no claim has links on both sides of the new tip, for a reorganisation; when nothing was split
  off, for abandoning. A run of seven steps, among them a reorganisation that passes its own assertion,
  reaches the panic (`ReturnCanPanic`): the reorganisation queues an outpoint that is still linked, no claim
  is built when its locktime comes, and the rest of the old claim matures without it.
- The merge assertion of a reorganisation (`deps/lightning-0.2.2/src/chain/onchaintx.rs:1166`) fails exactly
  when an undone outpoint goes back into a request whose own locktime lies more than one block above the new
  tip (`DisconnectPanicsExactlyWhen`), as with expired HTLC outputs that were aggregated (`ReorgCanPanic`).
- An undone outpoint whose locktime is above the new tip returns to the timelock queue even if it is still
  linked to a request; the cross-map invariant survives a reorganisation exactly when that does not occur
  (`DisconnectKeepsConsistentExactlyWhen`, `ReorgCanReturn`).
- Abandoning a claim leaves a dangling link exactly when an outpoint was split off it
  (`AbandonKeepsConsistentExactlyWhen`, `AbandonCanDangle`).
- Deduplication compares whole packages, so it misses outpoints inside aggregated timelocked packages
  (`DedupMissesExactlyAggregated`, `RepeatIsQueuedTwice`). Registering keeps the invariant exactly when all
  it lets through is new and requests that can merge concern outputs of one creation height
  (`RegisterKeepsConsistentExactlyWhen`).
- A slash in the parts of a name makes its key ambiguous: exactly the names without a secondary namespace and
  without slashes share their key with no other (`KeyIsOwnExactlyWhen`, `SlashCollides`).
- The equation asserted when forwarding holds exactly for proportional fees up to 1,000,000
  (`AddsUpExactlyWhen`), and its subtraction stays in range exactly below 2,000,000.
- The folded HTLC minimum of a blinded path can be one millisatoshi too low, but no more: every amount above
  it satisfies all hops (`AboveMinimumSuffices`), and it does itself exactly when each hop is reached by its
  running minimum or followed by a hop that raises it (`MinimumReachedExactlyWhen`). Delivering that one
  millisatoshi too little can leave a hop several short: seven in `MinimumCanFallShort`.
- A header that forks off is taken as a reorganisation before its proof of work is checked: one that misses its
  target still cuts the stored chain at the fork (`FailedForkRewinds`).
- Removing a header also unfiles whatever is filed at the height recorded for it (`RemoveForgets`).
- Header sync compares neither length nor work: the chain gets shorter exactly when a branch is shorter than
  what it replaces (`BranchReplaces`, `ShorterBranchReplaces`).
- A rejection rewind leaves headers above the tip in the store, and a later rewind can choose one whose
  parent is gone, exactly when the common height is filed and not linked (`RewindToKernel`,
  `StaleHeaderBecomesTip`).
- In a pool whose counts are exact, ancestors are undercounted exactly when a transaction is added after its
  spender (`AddingKeepsAncestorsCountedExactlyWhen`, `LateParentIsNotCounted`). A count that was too high can
  make up for a late parent.
- Resynchronising discards what was read past the header: the reader then stands at the end of the chunk that
  completed the magic, if that is beyond the header, and the payload is read from there (`ReadHeader`,
  `PayloadLost`).
- Listing a key-value namespace without a secondary one also answers the keys of every secondary one
  (`ListExactlyWhen`).
- A path with no hops, or more than 255, does not read back (`RoundTripExactlyWhen`).

## Assumptions of the claim tracker

The results on the whole invariant assume: claim ids are new (`NewIds`); requests that can merge concern outputs
of one creation height (`CreatedTogether`), and those that pass deduplication name outpoints that are not
timelocked in an aggregated package or awaiting the maturity of another spend (`AllNew`), which is exact; blocks
arrive in height order (`EventsUpTo`) and one branch does not spend an outpoint of a confirmed claim again
(`NoRespend`). Reorganisations and abandoned claims are assumed to meet the exact conditions above only where a
theorem says so. The results on the panic at line 1002 (`ClaimLinks`) assume none of this, unless they say
"consistent".

## Model

| member | source | states |
|---|---|---|
| Packages.SplitTakesOne | deps/lightning-0.2.2/src/chain/package.rs:1279-1309 | splitting succeeds exactly for a malleable package holding the outpoint, and takes out a well-formed package of that one outpoint and of the same kind |
| Packages.SplitLeavesRest | deps/lightning-0.2.2/src/chain/package.rs:1279-1309 | what stays holds exactly the other outpoints; a failed split changes nothing |
| Packages.SplitThenMerge | deps/lightning-0.2.2/src/chain/package.rs:1279-1328 | merging undoes splitting: whenever the merge guard allows it, the outpoints and the kind are restored |
| Packages.MergeOfKind | deps/lightning-0.2.2/src/chain/package.rs:1185-1250 | two malleable packages of one kind merge exactly when their locktimes at that height agree |
| Packages.MergedPinnable | deps/lightning-0.2.2/src/chain/package.rs:1185-1328 | packages merge only when both or neither can be pinned, flagged or spendable by others within twelve blocks, and what is merged can be exactly when its parts can |
| Packages.InputWithinPackage | deps/lightning-0.2.2/src/chain/package.rs:1339-1357 | no input asks for a later locktime than its package reports |
| Packages.RestWithinPackage | deps/lightning-0.2.2/src/chain/package.rs:1339-1357 | splitting never makes a package ask for a later locktime |
| Packages.LocktimeIs | deps/lightning-0.2.2/src/chain/package.rs:1339-1357 | a package asks for the signed locktime its inputs agree on, or else for the current height or the latest locktime an input asks for, whichever is later |
| ClaimRegister.AggregateBag | deps/lightning-0.2.2/src/chain/onchaintx.rs:806-819 | the in-place pairwise aggregation keeps every outpoint, as often as it occurred |
| ClaimRegister.RegisterConserves | deps/lightning-0.2.2/src/chain/onchaintx.rs:776-848 | deduplication, aggregation and the timelock split lose and invent no outpoint, for any requests and any state |
| ClaimRegister.ReadyIsDue | deps/lightning-0.2.2/src/chain/onchaintx.rs:806-848 | whatever is requested, every package handed to claim generation has its locktime reached, and every key left in the timelock queue lies above the current height |
| ClaimRegister.AggregateUniformExactlyWhen | deps/lightning-0.2.2/src/chain/onchaintx.rs:806-819 | every aggregated package stems from outputs of one creation height exactly when any two requests that can merge do |
| ClaimRegister.PreprocessIsSound | deps/lightning-0.2.2/src/chain/onchaintx.rs:776-848 | from a consistent tracker, for any requests: what is claimed or queued is well formed and tracked nowhere else exactly when all that deduplication lets through is new and what can merge is of one creation height |
| ClaimRegister.PlacedExactlyWhen | deps/lightning-0.2.2/src/chain/onchaintx.rs:776-848 | for any requests: what is claimed or queued names distinct outpoints that are tracked nowhere else exactly when all that deduplication lets through is new |
| ClaimRegister.RegisterKeepsConsistent | deps/lightning-0.2.2/src/chain/onchaintx.rs:764-905 | registering keeps the cross-map invariant whatever claims are built, given new claim ids and requests that meet the exact condition |
| ClaimRegister.RegisterKeepsConsistentExactlyWhen | deps/lightning-0.2.2/src/chain/onchaintx.rs:764-905 | when a claim with a new id is built for every package, registering keeps the invariant exactly when all that deduplication lets through is new and what can merge is of one creation height |
| ClaimRegister.RegisterPreparesReorg | deps/lightning-0.2.2/src/chain/onchaintx.rs:764-905 | after registering any requests, the queue lies above the current height, and no request asks for more than it if none did before: what undoing later blocks relies on |
| ClaimAccepted.RequestsTakenExactlyWhen | deps/lightning-0.2.2/src/chain/onchaintx.rs:776-848 | for any state and requests: each request adds its outpoint to what is claimed or queued exactly when the outpoint is neither claimable already nor timelocked in a package of its own |
| ClaimAccepted.AggregatePartitions | deps/lightning-0.2.2/src/chain/onchaintx.rs:806-819 | aggregation sorts the requests into groups, each joined into one package: two requests end up in one package exactly when they can be merged |
| ClaimAccepted.WaitingExactlyWhen | deps/lightning-0.2.2/src/chain/onchaintx.rs:820-848 | what waits afterwards is what waited for more than the current height and the aggregated packages whose locktime lies above it, each under its locktime; all else is claimed now |
| ClaimAccepted.RegisteredIs | deps/lightning-0.2.2/src/chain/onchaintx.rs:850-905 | each package that a claim can be built for becomes one request under the id of its claim, with the timer and feerate of that claim, and each of its outpoints is linked to it at the height the output was created at; everything else stays |
| ClaimRuns.DedupMissesExactlyAggregated | deps/lightning-0.2.2/src/chain/onchaintx.rs:776-804 | a request for a timelocked outpoint is taken a second time exactly when that outpoint sits in an aggregated package |
| ClaimSpend.SpendRequestSpent | deps/lightning-0.2.2/src/chain/onchaintx.rs:932-1004 | an input never runs into the panic at line 1002, and only moves outpoints between requests and contentious events |
| ClaimSpend.SpendTxsSpent | deps/lightning-0.2.2/src/chain/onchaintx.rs:932-1028 | seeing any transactions of a block keeps the invariant, keeps links and older events, and loses or invents no watched outpoint |
| ClaimMature.MatureKeepsInv | deps/lightning-0.2.2/src/chain/onchaintx.rs:1033-1063 | maturing events keeps the invariant: a claim takes its outpoints with it, a contentious outpoint is forgotten |
| ClaimMature.MatchedKeepsConsistent | deps/lightning-0.2.2/src/chain/onchaintx.rs:915-1110 | the whole step never panics and keeps the tracker consistent when blocks arrive in order without double spends |
| ClaimMature.GeneratedExactlyWhen | deps/lightning-0.2.2/src/chain/onchaintx.rs:557-600 | a new claim for a pending request is built exactly when no claim of it is confirmed and waiting |
| ClaimMature.RebumpedExactlyWhen | deps/lightning-0.2.2/src/chain/onchaintx.rs:1065-1110 | of one regeneration: a request gets a new claim exactly when it is a candidate or its timer ran out, its claim is unconfirmed and one can be built; its outpoints do not change |
| ClaimMatched.MatchedBumpsExactlyWhen | deps/lightning-0.2.2/src/chain/onchaintx.rs:927-1110 | of a whole block: a request that stays holds what the transactions leave of it, and has the timer and feerate of a new claim exactly when some transaction took an outpoint out of it or its timer ran out, no claim of it is confirmed, and one can be built; otherwise its old ones |
| ClaimMatched.MatchedEventsExactly | deps/lightning-0.2.2/src/chain/onchaintx.rs:932-1063 | after a block, the events are those known before and those its transactions bring (a claim confirmed, an outpoint taken out of a request or a timelocked package), as far as they are less than six blocks deep |
| ClaimMatched.MatchedKeepsExactly | deps/lightning-0.2.2/src/chain/onchaintx.rs:1033-1063 | a request is given up exactly when a claim of it is six blocks deep |
| ClaimMatched.MatchedLinksExactly | deps/lightning-0.2.2/src/chain/onchaintx.rs:1033-1063 | an outpoint is let go exactly when an event six blocks deep releases it: a claim of the request that holds it after the block, or a spend of its own |
| ClaimMatched.MatchedQueueExactly | deps/lightning-0.2.2/src/chain/onchaintx.rs:1006-1028 | the timelock queue loses exactly what the transactions spend, and packages and groups that become empty |
| ClaimTheorems.DisconnectPanicsExactlyWhen | deps/lightning-0.2.2/src/chain/onchaintx.rs:1141-1222 | a reorganisation passes its merge assertion exactly when no undone spend goes back into a request whose own locktime lies more than one block above the new tip |
| ClaimTheorems.DisconnectKeepsConsistentExactlyWhen | deps/lightning-0.2.2/src/chain/onchaintx.rs:1141-1222 | it keeps the cross-map invariant exactly when no outpoint still linked at that height returns to the timelock queue |
| ClaimUndone.DisconnectKeepsExactly | deps/lightning-0.2.2/src/chain/onchaintx.rs:1141-1222 | disconnecting gives up exactly the requests and links created above the height, keeps exactly the older events in their order, and files exactly the spent outpoints whose locktime is ahead, each under its locktime |
| ClaimUndone.DisconnectBumpsExactlyWhen | deps/lightning-0.2.2/src/chain/onchaintx.rs:1149-1199 | a request that stays gets back, in the order of the events, exactly what was split off it above the height; if that is something, no claim of it is confirmed at or below the height and one can be built there, it has the timer and feerate of that claim; a request that gets nothing back is unchanged |
| ClaimTheorems.ReorgUndoesSpending | deps/lightning-0.2.2/src/chain/onchaintx.rs:932-1063 | after any run of blocks above a height in which nothing matures, disconnecting to it panics exactly when some undone spend does not fit, and otherwise restores the events, the links, and the set of outpoints watched, for everything created by then |
| ClaimTheorems.RipeDoesNotPanic | deps/lightning-0.2.2/src/chain/onchaintx.rs:1156-1172 | when no request asked for more than one block above that height, all undone spends fit |
| ClaimTheorems.ReorgRestoresRequests | deps/lightning-0.2.2/src/chain/onchaintx.rs:1141-1222 | when moreover nothing goes back to the queue that stays linked, as when all requests were due at that height, the tracker is consistent again, each request holds exactly its own outpoints and the queue exactly the rest |
| ClaimReorgRuns.RegisterStands | deps/lightning-0.2.2/src/chain/onchaintx.rs:764-905 | registering looks after just what it did before and what is requested and no duplicate, but for the packages for which no claim is built |
| ClaimReorgRuns.ReorgUndoesRun | deps/lightning-0.2.2/src/chain/onchaintx.rs:764-1222 | after any run of registered requests and seen blocks above a height in which nothing matures, disconnecting to it panics exactly when some undone spend does not fit; otherwise it restores the events and watches just what was watched or requested since; and the tracker is consistent exactly when nothing goes back to the queue that stays linked |
| ClaimFailures.ReorgCanPanic | deps/lightning-0.2.2/src/chain/onchaintx.rs:1156-1172 | a two-step run, allowed at each step, after which the merge assertion fails |
| ClaimFailures.ReorgCanReturn | deps/lightning-0.2.2/src/chain/onchaintx.rs:1151-1163 | a reached consistent state and a reorganisation that passes its assertion and leaves an outpoint both queued and linked |
| ClaimFailures.ReturnCanPanic | deps/lightning-0.2.2/src/chain/onchaintx.rs:998-1003 | a seven-step run from the empty tracker, with a reorganisation that passes its assertion, that ends in the panic at line 1002 |
| ClaimFailures.AbandonCanDangle | deps/lightning-0.2.2/src/chain/onchaintx.rs:724-752 | a reached consistent state in which abandoning a claim breaks the invariant |
| ClaimFailures.RepeatIsQueuedTwice | deps/lightning-0.2.2/src/chain/onchaintx.rs:776-804 | a reached consistent state and a repeated request, after which an outpoint is queued twice |
| ClaimLinks.SpendTxsPanicsExactlyWhen | deps/lightning-0.2.2/src/chain/onchaintx.rs:936-1003 | in any state, a block runs into the panic at line 1002 exactly when one of its transactions spends an outpoint linked to a request that is gone |
| ClaimLinks.MatureKeepsLinkedExactlyWhen | deps/lightning-0.2.2/src/chain/onchaintx.rs:1033-1063 | maturing leaves no dangling link exactly when every outpoint linked to a maturing claim is released with it or by a spend of its own |
| ClaimLinks.DisconnectKeepsLinkedExactlyWhen | deps/lightning-0.2.2/src/chain/onchaintx.rs:1141-1222 | a reorganisation leaves no dangling link exactly when no claim has links on both sides of the new tip |
| ClaimLinks.ConsistentReorgKeepsLinked | deps/lightning-0.2.2/src/chain/onchaintx.rs:1141-1222 | from a consistent tracker a reorganisation that passes its assertion never leaves a dangling link |
| ClaimLinks.AbandonKeepsLinkedExactlyWhen | deps/lightning-0.2.2/src/chain/onchaintx.rs:724-752 | abandoning leaves no dangling link exactly when nothing is linked to the claim but what its request holds |
| ClaimLinks.StepKeepsLinkedExactlyWhen | deps/lightning-0.2.2/src/chain/onchaintx.rs:724-1222 | each of the five operations, when it does not panic, leaves no dangling link exactly under its condition; registering always |
| ClaimLinks.LinkedRunsDoNotPanic | deps/lightning-0.2.2/src/chain/onchaintx.rs:936-1003 | no run of steps that meet these conditions, with reorganisations that pass their own assertion, reaches the panic at line 1002, whatever is requested or spent |
| ClaimRuns.AbandonKeepsConsistentExactlyWhen | deps/lightning-0.2.2/src/chain/onchaintx.rs:724-752 | abandoning keeps the invariant exactly when nothing was split off the abandoned request |
| ClaimRuns.StepKeepsConsistent | deps/lightning-0.2.2/src/chain/onchaintx.rs:724-1222 | each of the five operations, when allowed, does not panic and keeps the invariant; for reorganisations and abandoning what is allowed is exactly when it is kept |
| ClaimRuns.RunsStayConsistent | deps/lightning-0.2.2/src/chain/onchaintx.rs:936-1003 | in every run of allowed steps no step panics, and each claimable outpoint names a live request and is in it or in an unmatured contentious event |
| OnchainTx.OnchainTxHandler.UpdateClaimsViewFromRequests | deps/lightning-0.2.2/src/chain/onchaintx.rs:764-905 | the object moves to the registered state, and stays consistent; which requests are taken, how they are grouped, which wait and what becomes of the others is said by `RequestsTakenExactlyWhen`, `AggregatePartitions`, `WaitingExactlyWhen` and `RegisteredIs` |
| OnchainTx.OnchainTxHandler.UpdateClaimsViewFromMatchedTxn | deps/lightning-0.2.2/src/chain/onchaintx.rs:915-1110 | the object panics exactly when the step does, and otherwise moves to its state, whose requests, events, links and queue are those of `MatchedBumpsExactlyWhen` and the `Matched...Exactly` lemmas |
| OnchainTx.OnchainTxHandler.BlocksDisconnected | deps/lightning-0.2.2/src/chain/onchaintx.rs:1141-1222 | the object panics exactly when some undone spend cannot merge back, is consistent afterwards exactly when none returns to the queue, and moves to the state of `DisconnectKeepsExactly` and `DisconnectBumpsExactlyWhen` |
| OnchainTx.OnchainTxHandler.TransactionUnconfirmed | deps/lightning-0.2.2/src/chain/onchaintx.rs:1113-1139 | disconnects down to below the first event the transaction caused |
| ClaimUndone.UnconfirmIs | deps/lightning-0.2.2/src/chain/onchaintx.rs:1113-1139 | without an event of the transaction nothing happens; otherwise the blocks from the height of its first event in the list up are disconnected |
| ClaimUndone.UnconfirmForgets | deps/lightning-0.2.2/src/chain/onchaintx.rs:1113-1139 | a transaction none of whose events is older than that first one has no event left |
| OnchainTx.OnchainTxHandler.AbandonClaim | deps/lightning-0.2.2/src/chain/onchaintx.rs:724-752 | drops the claim found or the timelocked packages, and answers true exactly when something was dropped |
| ClaimUndone.AbandonIs | deps/lightning-0.2.2/src/chain/onchaintx.rs:724-752 | abandoning gives up the request found, with the links of what it holds, or when none is found the timelocked packages that hold the outpoint; all other requests, links, timelocked packages and all events stay |
| OnchainTx.OnchainTxHandler.AggregateAll | deps/lightning-0.2.2/src/chain/onchaintx.rs:806-819 | the loop with removal and insertion in place computes the aggregation |
| OnchainTx.OnchainTxHandler.PopLocked | deps/lightning-0.2.2/src/chain/onchaintx.rs:836-848 | splits the ordered queue at the current height |
| OnchainTx.OnchainTxHandler.SpendPending | deps/lightning-0.2.2/src/chain/onchaintx.rs:936-1004 | covers or splits the request of one input, or panics exactly when the link dangles |
| OnchainTx.OnchainTxHandler.SpendLocked | deps/lightning-0.2.2/src/chain/onchaintx.rs:1006-1015 | splits the outpoint off every timelocked package, dropping what becomes empty |
| OnchainTx.OnchainTxHandler.MatureEvents | deps/lightning-0.2.2/src/chain/onchaintx.rs:1033-1063 | drains the events and keeps the unmatured ones in order |
| OnchainTx.OnchainTxHandler.RebumpDue | deps/lightning-0.2.2/src/chain/onchaintx.rs:1065-1110 | regenerates in any order of the candidates with one result |
| OnchainTx.OnchainTxHandler.UndoEvents | deps/lightning-0.2.2/src/chain/onchaintx.rs:1149-1178 | the loop over the drained events undoes all of them, or panics exactly when one cannot be merged back |
| ClaimReorg.UndoOneMoves | deps/lightning-0.2.2/src/chain/onchaintx.rs:1151-1178 | undoing an event leaves its outpoint in the queue when its locktime is ahead and otherwise in its own request, keeps an event at or below the height, and moves no other outpoint |
| BlindedFees.FirstGuessIsLeast | deps/lightning-0.2.2/src/blinded_path/payment.rs:689-694 | the rounded-up guess is the least amount that, with its fee, reaches what came in, and overshoots by less than 1 + rate |
| BlindedFees.ForwardIsLargest | deps/lightning-0.2.2/src/blinded_path/payment.rs:682-702 | the forwarded amount is the largest that fits, with its fee, in what came in |
| BlindedFees.ForwardExactlyWhen | deps/lightning-0.2.2/src/blinded_path/payment.rs:682-702 | an amount fits in what came in exactly when it is at most the forwarded amount; none does when the base fee alone exceeds it |
| BlindedFees.ForwardMonotone | deps/lightning-0.2.2/src/blinded_path/payment.rs:682-702 | more coming in never forwards less, and never more than came in |
| BlindedFees.AddsUpExactlyWhen | deps/lightning-0.2.2/src/blinded_path/payment.rs:695-700 | the asserted equation holds for all 64-bit inbound amounts exactly when the proportional fee is at most 1,000,000 |
| BlindedFees.NeverUnderflowsExactlyWhen | deps/lightning-0.2.2/src/blinded_path/payment.rs:695-696 | the subtraction stays in range for all 64-bit inbound amounts exactly when the proportional fee is below 2,000,000 |
| BlindedFees.ComputeAggregatedBasePropFee | deps/lightning-0.2.2/src/blinded_path/payment.rs:705-734 | the loop from the last hop on, with its overflow checks, computes the aggregate of `AggregateIsLeast` or refuses |
| BlindedFees.AggregateIsLeast | deps/lightning-0.2.2/src/blinded_path/payment.rs:705-734 | for every path, the aggregate is the hop's own base fee on top of the least that pays its rate on the base of the rest, and the least rate that compounds its own with that of the rest; there is none exactly when the rest has none or a product or sum does not fit in 64 bits |
| BlindedFees.AggregateCoversPath | deps/lightning-0.2.2/src/blinded_path/payment.rs:705-734 | for every path and amount, the aggregate fee is at least the sum of what the hops charge one after the other |
| BlindedFees.EnoughDelivers | deps/lightning-0.2.2/src/blinded_path/payment.rs:682-734 | whatever enters above the backward total is delivered as at least the amount, each hop keeping its fee |
| BlindedFees.AggregateDelivers | deps/lightning-0.2.2/src/blinded_path/payment.rs:682-734 | paying the aggregate delivers at least the amount |
| BlindedFees.OneHopIsExact | deps/lightning-0.2.2/src/blinded_path/payment.rs:705-734 | for one hop the aggregate is neither more nor less than its fee |
| BlindedPayInfo.ComputePayinfo | deps/lightning-0.2.2/src/blinded_path/payment.rs:736-788 | the loop over the hops computes the folded limits, with every refusal |
| BlindedPayInfo.MaximumExactlyWhen | deps/lightning-0.2.2/src/blinded_path/payment.rs:746-775 | an amount is within the folded maximum exactly when every hop stays within its maximum and the entry within the cap |
| BlindedPayInfo.FoldedExactlyWhen | deps/lightning-0.2.2/src/blinded_path/payment.rs:746-775 | the fold succeeds exactly when features are known, the expiry fits and the fees alone keep every hop within its maximum; it adds up the expiries |
| BlindedPayInfo.LimitsAfterHop | deps/lightning-0.2.2/src/blinded_path/payment.rs:746-775 | a hop turns the running minimum into the largest amount that fits with its fee, or 1 when the base fee alone takes more, and the running maximum into the largest amount that fits, or a refusal |
| BlindedPayInfo.BelowMinimumBreaks | deps/lightning-0.2.2/src/blinded_path/payment.rs:746-775 | every positive amount below the folded minimum breaks some hop's minimum |
| BlindedPayInfo.AdvertisedRange | deps/lightning-0.2.2/src/blinded_path/payment.rs:736-788 | the advertised maximum is exact for payee, hops and supply; below the advertised minimum nothing is acceptable, above it every minimum is met, and at it exactly under the stated condition; the advertised fee covers the path |
| BlindedPayInfo.AdvertisedExactlyWhen | deps/lightning-0.2.2/src/blinded_path/payment.rs:736-788 | with rates below 200%, information is advertised exactly when the fees fit 32 bits, all features are known, the expiry fits 16 bits, the fees alone keep every hop within its maximum and so does the lowest amount of the range; it names the summed expiry and the fees of the path |
| BlindedPayInfo.AboveMinimumSuffices | deps/lightning-0.2.2/src/blinded_path/payment.rs:746-775 | every amount above the folded minimum satisfies the minimum of every hop of the path |
| BlindedPayInfo.MinimaMetExactlyWhen | deps/lightning-0.2.2/src/blinded_path/payment.rs:746-775 | an amount satisfies every hop exactly when it is above the folded minimum, or equal to it and every hop is reached or followed by one that raises the running minimum |
| BlindedPayInfo.MinimumReachedExactlyWhen | deps/lightning-0.2.2/src/blinded_path/payment.rs:746-775 | the folded minimum of a path satisfies every hop exactly when each hop either is reached by its running minimum or is followed by a hop with a higher minimum or a base fee above it |
| BlindedPayInfo.MinimumCanFallShort | deps/lightning-0.2.2/src/blinded_path/payment.rs:763-768 | a path of three hops whose advertised minimum leaves the first hop seven millisatoshis short |
| HeaderTables.LookupsAgree | crates/wolfe-store/src/headers.rs:140-197 | in consistent tables no lookup reports corruption, and both lookups by height agree |
| HeaderTables.InsertKeepsConsistentExactlyWhen | crates/wolfe-store/src/headers.rs:44-70 | inserting keeps the three tables consistent exactly when the header is not filed at another height |
| HeaderTables.RemoveKeepsConsistent | crates/wolfe-store/src/headers.rs:74-108 | removing keeps the three tables consistent |
| HeaderTables.RemoveForgets | crates/wolfe-store/src/headers.rs:74-108 | a removed header is not found by its hash, nor anything at the height recorded for it; all other lookups answer as before |
| HeaderTables.InsertFinds | crates/wolfe-store/src/headers.rs:44-70 | an inserted header is found by its hash and at its height; lookups of other hashes, and of other heights it is not filed at, answer as before |
| HeaderTables.InsertUndoesRemove | crates/wolfe-store/src/headers.rs:44-108 | inserting the header just removed restores all three tables |
| HeaderTables.DisconnectRemoves | crates/wolfe-store/src/headers.rs:115-135 | disconnecting never fails on consistent tables, removes just the heights of the range and answers their hashes newest first |
| HeaderTables.DisconnectForgets | crates/wolfe-store/src/headers.rs:115-135 | after disconnecting, just the hashes answered are not found any more |
| HeaderTables.InsertAllFiles | crates/wolfe-store/src/lib.rs:114-135 | a batch is filed at its heights and nowhere else |
| HeaderTables.ReorganizeRefinesChain | crates/wolfe-store/src/lib.rs:142-178 | on a chain: keep the first part, append the new headers, answer the removed ones newest first |
| HeaderTables.KeyOrderIsNumeric | crates/wolfe-store/src/headers.rs:205-233 | four big-endian bytes sort as the numbers they encode |
| HeaderStore.WriteTransaction.DisconnectRange | crates/wolfe-store/src/headers.rs:115-135 | the loop from the top height down does what the function says, errors included |
| HeaderStore.NodeStore.InsertHeadersBatch | crates/wolfe-store/src/lib.rs:114-135 | all of the batch and the sync progress, or nothing |
| HeaderStore.NodeStore.Reorganize | crates/wolfe-store/src/lib.rs:142-178 | both phases and the sync progress, or nothing; zeros as sync hash when nothing is connected |
| HeaderStore.NodeStore.Tip | crates/wolfe-store/src/headers.rs:205-233 | the entry under the last key in byte order is the one of greatest height |
| ChainSync.ForkPointExactlyWhen | crates/wolfe-node/src/sync.rs:904-921 | the scan finds a height exactly when the hash is filed there at most 2017 below the tip |
| ChainSync.FollowStaysLinked | crates/wolfe-node/src/sync.rs:410-480 | whatever headers arrive the chain stays linked from genesis and a rewound chain is a prefix of the old one |
| ChainSync.FollowChecksWork | crates/wolfe-node/src/sync.rs:463-480 | nothing is stored whose proof of work was not checked |
| ChainSync.FollowExtends | crates/wolfe-node/src/sync.rs:410-480 | headers that link on and meet their targets extend the chain by just themselves |
| ChainSync.NextHeaderDecides | crates/wolfe-node/src/sync.rs:410-480 | from any point of a message, the first header after some that link on: if it links on, its target decides; if it forks off within reach, the stored chain is rewound and what was checked is dropped whether or not it meets its target; any other one ends the message and changes nothing |
| ChainSync.FailedForkRewinds | crates/wolfe-node/src/sync.rs:416-475 | a header that forks off within reach and misses its target leaves the chain cut at the fork, and that fork recorded |
| ChainSync.BranchReplaces | crates/wolfe-node/src/sync.rs:411-450 | a branch within reach replaces everything above its fork; the chain gets shorter exactly when the branch is shorter than what it replaces |
| ChainSync.ShorterBranchReplaces | crates/wolfe-node/src/sync.rs:411-450 | a chain of three that gives way to one of two |
| ChainSync.StoringLinks | crates/wolfe-node/src/sync.rs:483-491 | storing a checked batch keeps the tables consistent and the chain linked |
| ChainSync.RewindingLinks | crates/wolfe-node/src/sync.rs:425-445 | rewinding never reports corruption and leaves the chain up to the fork |
| SyncEngines.SyncEngine.constructor | crates/wolfe-node/src/sync.rs:116-143 | a restart on a fit store yields a linked chain ending in the tip hash |
| SyncEngines.SyncEngine.FindForkPoint | crates/wolfe-node/src/sync.rs:904-921 | the loop over heights computes the fork point |
| SyncEngines.SyncEngine.RewindToFork | crates/wolfe-node/src/sync.rs:416-460 | the outcomes of a header that does not link on: fork found and store rewound, not found, or write refused |
| SyncEngines.SyncEngine.HandleHeaders | crates/wolfe-node/src/sync.rs:383-491 | for every message and every failure the chain becomes what following the headers says (`NextHeaderDecides` says it header by header), heights 1 to the tip stay linked from genesis, and the store stays fit for a restart |
| SyncEngines.SyncEngine.RewindToKernel | crates/wolfe-node/src/sync.rs:696-729 | after a rejected block the state stays valid exactly when the common height is unfiled or linked; always when it is at most the tip or the recorded height |
| SyncEngines.CommonHeightIsHighest | crates/wolfe-node/src/sync.rs:871-900 | the common height is the highest in reach on which kernel and store agree |
| SyncEngines.StaleHeaderBreaksChain | crates/wolfe-node/src/sync.rs:696-729 | headers left above a rewound tip keep the store fit for a restart, but break the chain if a later rewind chooses one |
| SyncEngines.StaleHeaderBecomesTip | crates/wolfe-node/src/sync.rs:383-729 | a run of the engine that ends so: three headers, a rewind, another second header, and a rewind to the old third one |
| SyncEngines.SyncEngine.BuildLocator | crates/wolfe-node/src/sync.rs:925-965 | for any store the loop lists the filed hashes at the stepped heights and ends with genesis; on a linked chain just the hashes at the locator heights, whether or not genesis is filed |
| SyncEngines.LocatorDescends | crates/wolfe-node/src/sync.rs:925-965 | the heights start at the tip, go strictly down and end at genesis |
| SyncEngines.LocatorIsShort | crates/wolfe-node/src/sync.rs:925-965 | at most 10 + log2(tip + 1) entries |
| SyncEngines.LocatorIs | crates/wolfe-node/src/sync.rs:925-965 | entry k lies k below the tip up to k = 9 and 7 + 2^(k - 8) from there on, as long as that is above genesis; the last entry is genesis |
| SyncEngines.WalkedListsHighest | crates/wolfe-node/src/sync.rs:925-965 | in tables with gaps, the first ten entries are the ten highest hashes filed |
| MempoolState.ChildrenCounted | crates/wolfe-mempool/src/pool.rs:151-156 | each pooled parent gains one child per input spending it |
| MempoolState.AddedSize | crates/wolfe-mempool/src/pool.rs:133-150 | adding changes the total size by the entry's size |
| MempoolState.AdmittedExactlyWhen | crates/wolfe-mempool/src/pool.rs:45-150 | a transaction is admitted exactly when it is new, passes the policy, pays at least the minimum rate if its fee is known, fits in, and exceeds neither limit of ancestors or of children of a parent; it is filed with its fee, the rate that makes per virtual byte, and its ancestors |
| MempoolState.FeeIs | crates/wolfe-mempool/src/pool.rs:57-82 | a fee of zero is made up for by what the inputs are worth beyond the outputs when all inputs spend known outputs, and otherwise stays |
| MempoolState.AddingCountsWays | crates/wolfe-mempool/src/pool.rs:104-156 | adding transactions before their spenders keeps every count the number of ways up to an ancestor: one reached in two ways is counted twice |
| MempoolState.ReachedIsCounted | crates/wolfe-mempool/src/pool.rs:104-114 | the per-input sum is at least the number of ancestors within any distance |
| MempoolState.AddingKeepsAncestorsCounted | crates/wolfe-mempool/src/pool.rs:104-156 | adding a transaction before its spenders keeps every count at least the number of true ancestors |
| MempoolState.AddingKeepsAncestorsCountedExactlyWhen | crates/wolfe-mempool/src/pool.rs:104-156 | as far as the counts of its spenders are exact, adding a transaction keeps every count a bound exactly when nothing in the pool spends it yet |
| MempoolState.RemovingKeepsAncestorsCounted | crates/wolfe-mempool/src/pool.rs:163-171 | whatever is removed, the counts remain bounds |
| MempoolState.LateParentIsNotCounted | crates/wolfe-mempool/src/pool.rs:45-131 | a child and then its parent, both admitted: the parent is missing from the count of the child |
| Mempools.Mempool.Add | crates/wolfe-mempool/src/pool.rs:45-160 | admits or refuses as stated, keeps the byte count exact and within the limit, and keeps every pooled transaction within the ancestor limit |
| Mempools.Mempool.Remove | crates/wolfe-mempool/src/pool.rs:163-171 | gives back just the entry's bytes, never below zero |
| Mempools.Mempool.RemoveForBlock | crates/wolfe-mempool/src/pool.rs:174-188 | removes the confirmed transactions and counts those that were pooled |
| Mempools.Mempool.GetSortedByFeeRate | crates/wolfe-mempool/src/pool.rs:215-223 | every entry once, highest fee rate first |
| Mempools.Mempool.Trim | crates/wolfe-mempool/src/pool.rs:226-241 | from any over-limit pool: ends within the limit, having evicted the shortest sufficient tail of the sorted entries |
| Mempools.Mempool.Expire | crates/wolfe-mempool/src/pool.rs:244-259 | removes exactly the entries older than the limit |
| Mempools.Mempool.FeeHistogram | crates/wolfe-mempool/src/pool.rs:273-289 | the nested loops compute the non-empty buckets |
| FeeBuckets.BucketIs | crates/wolfe-mempool/src/pool.rs:273-289 | a rate falls in a bucket exactly when it reaches its boundary and not the next higher one |
| FeeBuckets.HistogramPartitions | crates/wolfe-mempool/src/pool.rs:273-289 | the buckets partition the entries of at least 1 sat/vB |
| FeeBuckets.PickFailsExactlyWhen | crates/wolfe-lightning/src/fee_estimator.rs:41-52 | the fallback is reached exactly when the target exceeds the total |
| FeeBuckets.FallbackUnreachable | crates/wolfe-lightning/src/fee_estimator.rs:41-52 | so never for a percentile up to 1 |
| FeeBuckets.SampledMonotone | crates/wolfe-lightning/src/fee_estimator.rs:28-53 | sampling is nonincreasing in the percentile |
| FeeBuckets.SampledIsQuantile | crates/wolfe-lightning/src/fee_estimator.rs:28-53 | it finds the highest boundary that at least the sampled share of the entries reach |
| FeeBuckets.SampledOfNone | crates/wolfe-lightning/src/fee_estimator.rs:28-39 | with no entry of 1 sat/vB or more, the minimum fee rate |
| FeeEstimators.WolfeFeeEstimator.SampleFeeRate | crates/wolfe-lightning/src/fee_estimator.rs:28-53 | the running count computes the sample |
| FeeEstimators.WolfeFeeEstimator.GetEstSatPer1000Weight | crates/wolfe-lightning/src/fee_estimator.rs:56-105 | the estimate of each target, never below 253 |
| FeeEstimators.EstimateExactlyWhen | crates/wolfe-lightning/src/fee_estimator.rs:56-105 | above its floor an estimate is at least n sat per 1000 weight exactly when 4n sat per 1000 virtual bytes are within the rate; it is never below the floor and fits in 32 bits |
| FeeEstimators.EstimateIsQuantile | crates/wolfe-lightning/src/fee_estimator.rs:56-105 | the sampled targets estimate the highest bucket boundary that 5, 10, 50, 60 or 100 percent of the entries of 1 sat/vB and more reach |
| FeeEstimators.FixedEstimates | crates/wolfe-lightning/src/fee_estimator.rs:56-105 | the other targets estimate the minimum rate, or 1 sat/vB |
| FeeEstimators.UrgencyOrdersEstimates | crates/wolfe-lightning/src/fee_estimator.rs:56-105 | for every pool MaximumFeeEstimate >= UrgentOnChainSweep >= AnchorChannelFee >= OutputSpendingFee >= ChannelCloseMinimum >= 253 |
| MessageResync.FindMagic | crates/wolfe-p2p/src/message.rs:53-54 | the first occurrence in a window, or none |
| MessageResync.WindowSees | crates/wolfe-p2p/src/message.rs:53-83 | a window sees an occurrence exactly when it lies inside |
| MessageResync.Resync | crates/wolfe-p2p/src/message.rs:45-96 | the loop ends within the bound, its offset is exact, the three-byte overlap misses nothing, and the reader stops after the header or at the end of the chunk that completed the magic |
| MessageResync.ReadHeader | crates/wolfe-p2p/src/message.rs:34-96 | the header is the 24 bytes from the first magic however reads are chunked; the reader stands after it, or at the end of the chunk that completed the magic if that is further on; in step just the header is read; every whole header in the first megabyte is found |
| MessageResync.ReadMessage | crates/wolfe-p2p/src/message.rs:34-124 | the payload is read from where the reader stands: with a whole header in the first megabyte the outcome is fixed, and right after the header the message is the consecutive bytes of header and payload |
| MessageResync.PayloadLengthIs | crates/wolfe-p2p/src/message.rs:98-100 | bytes 16 to 19 of the header are those of the length, the least significant first |
| MessageResync.PayloadLost | crates/wolfe-p2p/src/message.rs:34-124 | a stream that holds a whole message out of step, of which reading loses the payload |
| ChainMonitors.OutstandingMeans | deps/lightning-0.2.2/src/chain/chainmonitor.rs:776-823 | outstanding: registered at some point and not acknowledged at any later one |
| ChainMonitors.NothingHeld | deps/lightning-0.2.2/src/chain/chainmonitor.rs:229-236 | the list of a channel is empty exactly when every registered update is acknowledged |
| ChainMonitors.ChainMonitor.WatchChannel | deps/lightning-0.2.2/src/chain/chainmonitor.rs:1357-1401 | registers the first update exactly when persisting it is left in progress; panics exactly on an unrecoverable error; other channels and all waiting events stay |
| ChainMonitors.ChainMonitor.UpdateChannel | deps/lightning-0.2.2/src/chain/chainmonitor.rs:1405-1520 | registers an update exactly when persisting it is left in progress; a failed application is reported as in progress whatever was persisted; an unknown channel panics in a debug build only; other channels and all waiting events stay |
| ChainMonitors.ChainMonitor.ChannelMonitorUpdated | deps/lightning-0.2.2/src/chain/chainmonitor.rs:776-823 | queues `Completed` exactly when every update ever registered for the channel is now acknowledged, in any order of acknowledgements |
| ChainMonitors.ChainMonitor.ReleasePendingMonitorEvents | deps/lightning-0.2.2/src/chain/chainmonitor.rs:1525-1547 | hands out, in order and once, what was waiting, then one `Completed` for each acknowledgement that leaves its channel nothing outstanding, and every monitor's own events once |
| KvStores.KeysAreInjective | crates/wolfe-lightning/src/persister.rs:94-100 | names of slash-free parts never share a key |
| KvStores.SlashCollides | crates/wolfe-lightning/src/persister.rs:94-100 | a slash in a key collides with a secondary namespace |
| KvStores.KeyIsOwnExactlyWhen | crates/wolfe-lightning/src/persister.rs:94-100 | of all names, one shares its key with no other exactly when it has no secondary namespace and no part of it holds a slash |
| KvStores.UnderPrefix | crates/wolfe-lightning/src/persister.rs:94-108 | which names fall under a prefix |
| KvStores.RangeIsPrefix | crates/wolfe-lightning/src/persister.rs:206-232 | the range up to the bumped prefix holds exactly the texts with the prefix |
| KvStores.ListExactlyWhen | crates/wolfe-lightning/src/persister.rs:201-246 | listing is exact exactly when a secondary namespace is named or none is in use |
| KvStores.KvStore.Read | crates/wolfe-lightning/src/persister.rs:112-137 | for slash-free parts, reads the map of names |
| KvStores.KvStore.Write | crates/wolfe-lightning/src/persister.rs:139-168 | for slash-free parts, updates the map of names at that name only |
| KvStores.KvStore.Remove | crates/wolfe-lightning/src/persister.rs:170-199 | for slash-free parts, removes that name only |
| KvStores.KvStore.List | crates/wolfe-lightning/src/persister.rs:201-246 | exactly the keys under the prefix, in order; for slash-free parts those of the namespace |
| BlindedPathCodec.LengthReadsBack | deps/lightning-0.2.2/src/util/ser.rs:564-587 | a collection length reads back, in both its forms |
| BlindedPathCodec.LengthLayout | deps/lightning-0.2.2/src/util/ser.rs:564-587 | a length takes two bytes, most significant first, or from 0xffff on two bytes 0xff and what it has beyond 0xffff in eight |
| BlindedPathCodec.PathLayout | deps/lightning-0.2.2/src/blinded_path/mod.rs:130-149 | the bytes of a path, position by position: a key, or a direction and a channel id, most significant byte first; the point; the number of hops in one byte; the hops |
| BlindedPathCodec.HopLayout | deps/lightning-0.2.2/src/blinded_path/mod.rs:130-149 | the bytes of a hop: its key, the length of its payload, and the payload |
| BlindedPathCodec.PathReadsBack | deps/lightning-0.2.2/src/blinded_path/mod.rs:130-177 | what reading a written path gives for any number of hops |
| BlindedPathCodec.RoundTripExactlyWhen | deps/lightning-0.2.2/src/blinded_path/mod.rs:130-177 | the same path, and what follows untouched, exactly for 1 to 255 hops |
| BlindedPathCodec.IntroductionIs | deps/lightning-0.2.2/src/blinded_path/mod.rs:152-166 | the first byte tells a directed channel (0 or 1) from a key (2 or 3) |
| BlindedPathCodec.EncodingIsUnique | deps/lightning-0.2.2/src/blinded_path/mod.rs:130-177 | bytes that read as a path are its one encoding followed by the rest |
| BlindedPathCodec.CutIsShort | deps/lightning-0.2.2/src/blinded_path/mod.rs:130-177 | cut anywhere, a written path of 1 to 255 hops is reported as too short, never as invalid or as another path |
| BlindedPathCodec.Writer.WritePath | deps/lightning-0.2.2/src/blinded_path/mod.rs:130-149 | the writer appends the encoding |
| BlindedPathCodec.Reader.ReadBytes | deps/lightning-0.2.2/src/util/ser.rs:1070-1085 | reading a vector in pieces of bounded size takes just its bytes |
| BlindedPathCodec.Reader.ReadPath | deps/lightning-0.2.2/src/blinded_path/mod.rs:152-177 | the reader decodes, or fails as stated |

## Left out

- `pending_claim_events`, broadcasting, `rebroadcast_pending_claims` and serialisation of the claim tracker: they do not feed back into the four collections.
- Timers, fees, weights and signing of claim packages: an arbitrary function decides whether a claim is built and what timer, feerate and id it gets.
- Bump candidates of a reorganisation are kept per claim id; the source keys them by id and creation height, which is the same while the outpoints of a request share one creation height.
- The debug assertion on transaction trees in package merging.
- OnchainTx.OnchainTxHandler.TransactionUnconfirmed: an event at height 0 is taken as a panic, as in a build with overflow checks.
- BlindedPayInfo.ComputePayinfo: a subtraction that underflows is taken as a panic, as in a build with overflow checks; it needs a proportional fee of 2,000,000 or more. The debug assertion beside it (payment.rs:700), which can fail from 1,000,001 on (`AddsUpExactlyWhen`), is not part of this model, so a debug build can panic for rates at which the model does not.
- TLV encoding, padding and encryption of blinded hops.
- SyncEngines.SyncEngine.HandleHeaders: progress counters, sync states, outgoing requests and the choice of peers are not part of this model, and heights are assumed to stay below 2^32, where the source truncates.
- SyncEngines.SyncEngine.RewindToKernel: only the rewind of a rejected block; the block download queue and its cursor are not modelled.
- HeaderStore.NodeStore.Reorganize: no agreement of the recorded sync hash with the tip is claimed, because an empty reorganisation records zeros.
- Mempools.Mempool.Add: calls are sequential and fee rates are reals; concurrent races and floating-point rounding are not modelled.
- Descendant counts never shrink in the source; nothing is claimed of them beyond how an addition changes them.
- FeeEstimators.WolfeFeeEstimator.GetEstSatPer1000Weight: arithmetic is on reals, without floating-point rounding.
- Decoding of P2P payloads and writing of messages.
- ChainMonitors.ChainMonitor.UpdateChannel: the channel monitor itself is not part of this model; it is assumed only to add to its own events. Locks and the poisoning after a panic are not modelled.
- Payment records of the key-value store, and input/output errors while reading it.
- Networking, wallet, RPC, metrics and configuration: input/output and formatting.
