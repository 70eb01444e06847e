# A verified model of the provider stack's pipelines

The provider stack takes bundles of privacy-channel operations from entities, admits them for a
fee, executes them on chain and follows their outcome. This project models its four hardest parts
in Dafny and proves what they promise.

- **The bundle lifecycle.** The mempool, the executor and the verifier are independent tasks over
  shared tables. `Tables` has one function per SQL statement, `Lifecycle` is the state machine in
  which each statement, clock reading and RPC answer is one step, and any tick may stop after any
  step. Most status writes are ungated, so safety rests on an ownership argument across tasks
  (`LifecycleInvariant`), from which follow the whole-run results of `LifecycleSafety`,
  `LifecycleOutcome`, `LifecycleFifo`, `LifecycleSends` and `LifecycleCauses`. `Pipelines` has the
  tick loops themselves, over mutable tables, with the other tasks running between any two
  statements; each tick is proved to be a stretch of a run of the machine, and its contract names the
  steps of it.
- **The value pipeline.** `ScVals`, `Mlxdr`, `Fees`, `SpendSlots`, `HoldingKeys` and `Submission`
  take MLXDR slots through decoding, classification, fee derivation, the fee Create, aggregation,
  in-place signing of held spends and admission. `AuthEntries`, `SignatureMap` and `AuthPasses` are
  the executor's rewriting of authorization entries and footprint; `HeldSignatures` joins them to
  the slots that submission signed.
- **Key discovery and coins.** `HoldingScan` is the provider's batched gap scan with concurrent
  requests and payments. `Wallet`, `Stroops`, `Client` and `ClientBundles` are the payer's derived
  keys, amounts, selection and bundles. `ClientDelivery` says what the provider then reads of them, and
  `HeldFunds` takes them through its signing and admission to the fee it charges.
- **Two smaller machines.** `Nonces` is the bounded single-use nonce store over whole runs, and
  `EventWatcher` the at-least-once replay of a council's events.

Code that works step by step is a class or a method with loops, proved against a function or a
step relation; the theorems are lemmas about those. Slots are base64 (section 4 of RFC 4648) around
XDR (sections 4.10, 4.13, 4.15 and 4.19 of RFC 4506); the frame, the operation payloads, the
signature wrappers and the i128 halves are concrete, the byte codecs are a pair of functions assumed
to round-trip. Hashing, key derivation and signing are uninterpreted functions.

Where comments and code differ, the model follows the code:

- The executor's comments speak of a retry budget; the first failed submission marks the bundle
  FAILED (`crates/core/src/pipelines/executor.rs:125-130`).
- The holding scan is explained by used keys forming an unbroken run; they need not, and
  `HoldingScan.UsedKeysMayHaveGaps` shows it. What makes the scan complete is that at most 10 targets
  are handed out against batches of 20.

Some promises hold only under a condition. For each that condition is proved to be exact, or an input
or a run from an empty database shows what lies outside it (`ValueWitness`, `LifecycleWitness`,
`OrderWitness`):

- Value is conserved as integers exactly when the excess fits an i128 (`Fees.Conservation`,
  `ValueWitness.ConservationCanFail`). Where it does, the sent bundle balances to zero exactly when it
  spends nothing if deposits count, and deposits nothing in total if they do not
  (`Fees.BalancesExactlyWhen`, `ValueWitness.BalanceCanFail`).
- Bundle and transaction outcomes agree unless one of three kinds of step occurs
  (`LifecycleOutcome.StrandsExactlyWhen`); a bundle hit by one stays PROCESSING for good and keeps its
  slot (`LifecycleWitness.StrandedIsReached`, `LifecycleWitness.TheOneSlotIsLost`).
- A bundle is sent once, and what is sent is linked, unless one of three steps falls between its send
  and its link (`LifecycleSends.BreaksExactlyWhen`, `LifecycleWitness.SentTwice`,
  `LifecycleWitness.SentAndFailed`).
- Promotions come in order of age while PENDING fits the LIMIT of 256 (`LifecycleFifo.PromotionsInOrder`,
  `OrderWitness.PromotedOutOfOrder`).
- An executor tick that finds none of the PROCESSING bundles linked settles them all exactly when they
  fit its LIMIT (`LifecycleOutcome.TickSettlesAllExactlyWhen`).
- A signature map is in the host's order exactly when no UTXO is signed for twice
  (`SignatureMap.OrderedExactlyWhen`, `ValueWitness.OrderCanFail`).
- The simulation's entries for other addresses stay the only ones exactly when every user's entry
  that stands in is an Account one (`AuthPasses.OthersKeptExactlyWhen`, `ValueWitness.OthersCanChange`).
- The nonces that are spent are in the footprint exactly when each belongs to the account that a user's
  slot names, or was there (`AuthPasses.NoncesInFootprintExactlyWhen`, `ValueWitness.NonceCanBeMissing`).

## Model

| member | source | states |
|---|---|---|
| LifecycleInvariant.WorldKeepsInv | crates/persistence/src/repo.rs:305-328 | A submit inserts a fresh PENDING row and disturbs nothing any task holds. |
| LifecycleInvariant.MempoolKeepsInv | crates/core/src/pipelines/mempool.rs:59-87 | Every mempool step, including both ungated status writes and an abort at any point, keeps the ownership invariant: listed PENDING rows are still PENDING. |
| LifecycleInvariant.ExecutorKeepsInv | crates/core/src/pipelines/executor.rs:92-133 | Every executor step keeps it: a listed row that is unlinked is still PROCESSING, the bundle in hand is unlinked and its new hash is on no link. |
| LifecycleInvariant.VerifierKeepsInv | crates/core/src/pipelines/verifier.rs:83-188 | Every verifier step keeps it: the bundles still to be written are linked to the settled transaction and PROCESSING. |
| LifecycleInvariant.PartitionSplits | crates/core/src/pipelines/mempool.rs:64 | The TTL partition loses and adds no row; the halves are exactly the rows past and within their TTL. |
| LifecycleInvariant.ToPromoteKeeps | crates/core/src/pipelines/mempool.rs:71-87 | Sorting and cutting leaves min(free, live) distinct rows that are still PENDING. |
| LifecycleSafety.StepIsForward | crates/persistence/src/repo.rs:375-409 | Any enabled step moves statuses only along PENDING, PROCESSING, terminal or PENDING, EXPIRED, keeps every row, TTL and age, and loses no link, although set_status is not gated. |
| LifecycleSafety.InvThroughout | crates/core/src/pipelines/mod.rs:24-34 | The ownership invariant holds in every state of every interleaving of submits, clock and the three tasks. |
| LifecycleSafety.StatusesOnlyMoveForward | crates/persistence/src/repo.rs:375-409 | Over any stretch of any run: terminal statuses are absorbing, and retry_count is 1 exactly on FAILED rows and 0 on all others. |
| LifecycleSafety.AtMostTwoChangesEach | crates/persistence/src/repo.rs:375-409 | n bundles see at most 2n status changes in any run. |
| LifecycleSafety.CapacityRespected | crates/core/src/pipelines/mempool.rs:69-87 | In every state of every run PROCESSING rows plus promotions still owed number at most the larger of the slot capacity and the count at boot, despite a stale and LIMIT-cut count. |
| LifecycleSafety.LinksAreOneToOne | crates/persistence/src/repo.rs:485-513 | Links are one-to-one both ways, no linked bundle is PENDING or EXPIRED, COMPLETED goes with VERIFIED and FAILED with FAILED. |
| LifecycleSafety.CompletedHasOneVerifiedTx | crates/core/src/pipelines/verifier.rs:93-128 | A COMPLETED bundle has exactly one linked transaction and it is VERIFIED. |
| LifecycleSafety.LinkedWithinTtl | crates/core/src/pipelines/executor.rs:118-124 | Every bundle linked during a run passed its execution gate at a moment when its TTL was not yet past. |
| LifecycleOutcome.ListingCompleteIffFits | crates/persistence/src/repo.rs:341-357 | A listing leaves out no row of its status exactly when those rows number at most the LIMIT. |
| LifecycleOutcome.ExecutorListsAll | crates/core/src/pipelines/executor.rs:92-97 | The capacity invariant makes the executor list every PROCESSING bundle. |
| LifecycleOutcome.TickSettlesExactlyTheListed | crates/core/src/pipelines/executor.rs:92-133 | Of the bundles unlinked and PROCESSING at its listing, a tick that is not aborted leaves linked or terminal exactly the listed ones, whatever the others do meanwhile. |
| LifecycleOutcome.ExecutorTickSettlesAll | crates/core/src/pipelines/executor.rs:92-133 | So it settles all that were PROCESSING whenever they fit the LIMIT, as they do from a boot with no more of them than slots. |
| LifecycleOutcome.TickSettlesAllExactlyWhen | crates/core/src/pipelines/executor.rs:92-133 | Where none of them was linked, it settles all exactly when they number at most the slot capacity. |
| LifecycleOutcome.OutcomesAgree | crates/core/src/pipelines/verifier.rs:83-188 | At verifier tick boundaries of orderly runs: linked PROCESSING iff UNVERIFIED, COMPLETED iff VERIFIED, FAILED iff FAILED. |
| LifecycleOutcome.AgreesOrStranded | crates/core/src/pipelines/verifier.rs:83-188 | Without the assumptions, a linked bundle at a boundary either has its transaction's outcome or is stranded, and never both. |
| LifecycleOutcome.StrandsExactlyWhen | crates/core/src/pipelines/executor.rs:289-291 | A bundle becomes stranded by exactly three kinds of step: an abort between the two status writes, settling a transaction whose link was not seen, linking a transaction already settled. |
| LifecycleOutcome.StrandedForever | crates/core/src/pipelines/verifier.rs:83-84 | A stranded bundle stays PROCESSING in every later state: the verifier lists only UNVERIFIED transactions. |
| LifecycleOutcome.StrandedSlotsStopPromotion | crates/core/src/pipelines/mempool.rs:69-87 | Once stranded bundles fill the slots nothing is ever promoted again. |
| LifecycleSends.BreaksExactlyWhen | crates/core/src/pipelines/executor.rs:280-291 | Between a send and its link a bundle leaves the way to the link by exactly three steps: a stop, a failed INSERT of the transaction, a failed INSERT of the link. |
| LifecycleSends.WhatABreakLeaves | crates/core/src/pipelines/executor.rs:110-131 | After a stop the bundle is unlinked PROCESSING again, as before any send; after a failed INSERT it is next marked FAILED. |
| LifecycleSends.SentOnce | crates/core/src/pipelines/executor.rs:110-131 | In every run a bundle hit by none of the three is sent at most once, and once sent it is linked or about to be. |
| LifecycleSends.SentAgainOnlyAfterAStop | crates/core/src/pipelines/executor.rs:110-131 | In every run a second send takes a stop of the executor past the first: what failed INSERTs leave is never sent again. |
| LifecycleCauses.SubmitStores | crates/persistence/src/repo.rs:305-328 | A submit inserts, under an id not yet there, a row that is PENDING with the TTL given, the time and no retries, and changes nothing else. |
| LifecycleCauses.LeavesPendingByItsTtl | crates/core/src/pipelines/mempool.rs:59-87 | In every run a PENDING row becomes EXPIRED only if its TTL was before the time its tick read from the clock, and PROCESSING only if it was not. |
| LifecycleCauses.TickExpiresAllPast | crates/core/src/pipelines/mempool.rs:61-67 | In every run a tick that comes to count its slots has written EXPIRED to every row it listed past its TTL. |
| LifecycleCauses.SettledByItsAnswer | crates/core/src/pipelines/verifier.rs:83-188 | In every run a transaction is VERIFIED only if the RPC reported it a success, and FAILED only if it reported it a failure on chain, unless it was so at boot. |
| LifecycleCauses.CompletedByItsAnswer | crates/core/src/pipelines/verifier.rs:93-128 | So a bundle is COMPLETED only with a linked transaction that the RPC reported a success or that was VERIFIED at boot. |
| LifecycleWitness.StrandedIsReached | crates/core/src/pipelines/verifier.rs:93-128 | A run from an empty database that strands a bundle: the verifier stops between its two status writes. |
| LifecycleWitness.TheOneSlotIsLost | crates/core/src/pipelines/mempool.rs:69-87 | With one slot, no run from there ever promotes anything. |
| LifecycleWitness.SentTwice | crates/core/src/pipelines/executor.rs:280-291 | A run from an empty database that sends one bundle twice. |
| LifecycleWitness.SentAndFailed | crates/core/src/pipelines/executor.rs:125-130 | A run from an empty database that ends with the bundle FAILED, its transaction sent and unlinked. |
| LifecycleFifo.TickTakesTheOldest | crates/core/src/pipelines/mempool.rs:76-87 | A tick commits to live rows still PENDING, oldest first, none left behind being older than one taken, although the query returns newest first: as many as make up the slot capacity with the rows listed as PROCESSING, or all of them if they do not. |
| LifecycleFifo.TickFillsTheSlots | crates/core/src/pipelines/mempool.rs:69-87 | Over the tables: if PROCESSING fits the capacity, the rows then PROCESSING and those taken come to the smaller of the capacity and all of them with the live ones; if it does not, none is taken. |
| LifecycleFifo.TickPromotesAllTaken | crates/core/src/pipelines/mempool.rs:85-86 | A tick that reaches its end has written PROCESSING, itself, to every row it committed to. |
| LifecycleFifo.PromotionsInOrder | crates/core/src/pipelines/mempool.rs:61-87 | Over all ticks of a run the promoted rows come in order of created_at, as long as PENDING fits the LIMIT whenever it is listed. |
| LifecycleFifo.OverflowBreaksOrder | crates/core/src/pipelines/mempool.rs:61-64 | Past 256 live rows every listing leaves out a live row older than everything the tick can promote. |
| OrderWitness.PromotedOutOfOrder | crates/core/src/pipelines/mempool.rs:61-87 | A run from an empty database, nothing failing, that promotes rows of ages 1 to 256 and then the row of age 0. |
| Pipelines.RecordIsRun | crates/core/src/pipelines/mod.rs:24-34 | What the loops record is a run of the state machine from a boot. |
| Pipelines.GoesOnIsPrefix | crates/core/src/pipelines/mod.rs:24-34 | What is recorded later only goes on from what was recorded before. |
| Pipelines.TickIsAStretch | crates/core/src/pipelines/mod.rs:24-34 | A tick is a stretch of a run: the run up to its beginning is a prefix, and the loop's own steps, which the tick contracts state, are those the rest of the run has of it. |
| Pipelines.LoopsAreSafe | crates/core/src/pipelines/mod.rs:24-34 | Hence the ownership invariant and the slot capacity hold of the tables the loops leave, whatever interleaved. |
| Pipelines.Provider.SetStatus | crates/persistence/src/repo.rs:375-384 | One ungated UPDATE, or an error without effect. |
| Pipelines.Provider.MarkBundleFailed | crates/persistence/src/repo.rs:390-409 | One UPDATE gated on PENDING or PROCESSING that counts a retry, or an error without effect. |
| Pipelines.Provider.CreateTransaction | crates/persistence/src/repo.rs:423-440 | INSERT of an UNVERIFIED row, refused for a hash already there. |
| Pipelines.Provider.LinkTransaction | crates/persistence/src/repo.rs:485-494 | INSERT of a link, idempotent on conflict. |
| Pipelines.Provider.SetTransactionStatus | crates/persistence/src/repo.rs:464-471 | One ungated UPDATE of a transaction. |
| Pipelines.Provider.ListByStatus | crates/persistence/src/repo.rs:341-357 | The answer is the newest LIMIT rows of the status, each once, newest first. |
| Pipelines.Provider.ListUnverified | crates/persistence/src/repo.rs:453-462 | The answer is the oldest LIMIT unverified transactions, oldest first. |
| Pipelines.Provider.ListTransactionsForBundle | crates/persistence/src/repo.rs:497-503 | The answer holds exactly the linked hashes; so it is empty exactly when the bundle is not linked. |
| Pipelines.Provider.ListBundlesForTransaction | crates/persistence/src/repo.rs:506-513 | The answer holds every linked bundle once. |
| Pipelines.SortedListing | crates/persistence/src/repo.rs:341-357 | Sorting all rows of a status newest first and cutting gives a listing. |
| Pipelines.SortedTxListing | crates/persistence/src/repo.rs:453-462 | Sorting oldest first and cutting gives a transaction listing. |
| Pipelines.Provider.Sweep | crates/core/src/pipelines/mempool.rs:65-67 | One EXPIRED write for each expired row in turn; it stops early exactly at a statement that failed. |
| Pipelines.Provider.Promote | crates/core/src/pipelines/mempool.rs:85-86 | One PROCESSING write for each taken row in turn; it stops early exactly at a statement that failed. |
| Pipelines.Provider.TtlGate | crates/core/src/pipelines/executor.rs:118-124 | Past the gate exactly when the listed TTL is before the clock; then the bundle is to be expired, else submitted. |
| Pipelines.Provider.ExecuteOne | crates/core/src/pipelines/executor.rs:110-131 | One outcome, with the steps it takes: skipped, expired, sent and linked, or failed at the send or at either INSERT and marked FAILED. If the last of those steps is the one that fails, the tick stops in its place, and only then. |
| Pipelines.OutcomesAreDue | crates/core/src/pipelines/executor.rs:110-131 | In every run the outcome is the one that is due: a bundle is passed over exactly if it was linked when looked up, and past the gate expired exactly if its TTL had passed when the clock was read, unless the executor stops there. |
| Pipelines.Provider.ExecuteAll | crates/core/src/pipelines/executor.rs:110-131 | The loop over the listed bundles: one outcome for each, in order, the last cut short if it ended the tick. |
| Pipelines.Provider.WriteOutcomes | crates/core/src/pipelines/verifier.rs:117-165 | One status write for each linked bundle in turn; it stops early exactly at a statement that failed. |
| Pipelines.Provider.VerifyOne | crates/core/src/pipelines/verifier.rs:83-188 | An RPC error is passed over, an unknown transaction too once looked up; a final answer settles the transaction, then each of its bundles. It gives up exactly when a statement failed. |
| Pipelines.Provider.VerifyAll | crates/core/src/pipelines/verifier.rs:83-188 | The loop over the listed transactions: one answer for each, in order, up to the first that ends the tick. |
| Pipelines.Provider.MempoolTick | crates/core/src/pipelines/mempool.rs:53-125 | The loop, with interference between its statements. Unless a statement failed its own steps are: clock, listing, one expiry per row past its TTL, count, one promotion per row taken, end; and rows listed as PROCESSING and promotions come to the slot capacity, or all live rows are promoted and both fit it. |
| Pipelines.Provider.SubmitOne | crates/core/src/pipelines/executor.rs:148-300 | Send, create, link: each its own step, with interference between; which of them failed decides the steps taken and the stage reached. |
| Pipelines.Provider.ExecutorTick | crates/core/src/pipelines/executor.rs:77-133 | The same for the executor: the listing, then one outcome for each bundle listed, in order; a tick that a failed statement ends has taken the steps up to that statement. |
| Pipelines.Provider.VerifierTick | crates/core/src/pipelines/verifier.rs:70-190 | The same for the verifier's nested loops: one answer for each hash listed, in order, unless a statement failed. |
| Sorting.SortSorts | crates/core/src/pipelines/mempool.rs:83 | The sort orders and permutes. |
| Sorting.SortIsStable | crates/core/src/pipelines/mempool.rs:83 | The sort keeps elements of equal rank in their order, as sort_by_key does. |
| ScVals.SplitJoin | crates/core/src/mlxdr.rs:155-161 | Splitting an i128 into halves and joining them are inverse, for every i128 and every pair of halves. |
| ScVals.WrapLifts | crates/core/src/mlxdr.rs:692-707 | Release-build i128 sums may be wrapped at any point without changing the result. |
| Mlxdr.EncodeThenRead | crates/core/src/mlxdr.rs:84-145 | A slot framed as prefix, type byte and XDR is read back as the same kind and outer vector. |
| Mlxdr.ReadsExactlyWhen | crates/core/src/mlxdr.rs:84-145 | A slot is read as a kind and an outer vector exactly when it is base64 of 0x30 0xb0, the type byte 4 to 7 of the kind, and XDR of that vector. |
| Mlxdr.FrameErrors | crates/core/src/mlxdr.rs:84-107 | Which frames are refused and why: no base64, under three bytes, another prefix, a type byte outside 4 to 7. |
| Mlxdr.DecodesExactlyWhen | crates/core/src/mlxdr.rs:84-165 | A slot decodes to an operation exactly when it has that format and its payload says so: a Create exactly UTXO and i128, a Spend its UTXO first, a Deposit or Withdraw an i128 second. |
| Mlxdr.Classify | crates/core/src/mlxdr.rs:668-680 | The loop gives the operations by kind in slot order, or the error of the first bad slot. |
| Mlxdr.Aggregate | crates/core/src/mlxdr.rs:520-663 | The loop gives the channel operation of the payloads by kind in slot order, the extra Create last, or the first error. |
| Mlxdr.ReadBack | crates/core/src/mlxdr.rs:566-592 | The contract, reading fields by symbol, gets exactly the four lists that were written. |
| Mlxdr.AggregateMatchesClassify | crates/core/src/mlxdr.rs:520-680 | Whatever classify accepts the aggregators accept, each list being the same operations in the same order with the same amounts. |
| Fees.FeeIsWrappedExcess | crates/core/src/mlxdr.rs:710-718 | The fee is the integer excess of inflow over outflow modulo 2^128, deposits counting alone when positive. |
| Fees.SentIsClassifiedPlusFee | crates/core/src/pipelines/executor.rs:187-194 | From the sent argument the contract reads the classified operations of each kind, in order, and after the creates one more, which decodes to the Create of the fee on the provider's key; nothing else. |
| Fees.Conservation | crates/core/src/mlxdr.rs:502-718 | With the fee Create in, what is left over is total spend if deposits count and total deposit if not: always modulo 2^128, and as integers exactly when the excess fits an i128. |
| Fees.BalancesExactlyWhen | crates/core/src/mlxdr.rs:710-718 | The contract balances to zero exactly when the side of the inflow that the fee derivation ignores makes up for what wrapping took from the excess; where the excess fits an i128, exactly when that side is zero: spends if deposits count, deposits if not. |
| SpendSlots.ExtractSpendSignatures | crates/core/src/mlxdr.rs:294-361 | The loop gives the signatures of the well-signed Spend slots in slot order, or the first error. |
| SpendSlots.CarriesExactlyWhen | crates/core/src/mlxdr.rs:294-361 | A slot carries a signature exactly when it is a Spend of a 65-byte UTXO followed by a wrapper that begins with an i128, whose low half modulo 2^32 is the expiration, and the 64 signature bytes. |
| SpendSlots.UnsignedExactlyWhen | crates/core/src/mlxdr.rs:369-416 | A slot is an unsigned spend of a UTXO exactly when it is a Spend of those 65 bytes that nothing or an empty vector follows. |
| SpendSlots.PassedOverExactlyWhen | crates/core/src/mlxdr.rs:369-416 | It is passed over exactly when it is of another kind or followed by something else. |
| SpendSlots.ConditionsExactlyWhen | crates/core/src/mlxdr.rs:418-470 | A slot has conditions to sign exactly when it is a Spend whose payload has second a nonempty vector that can be written as XDR. |
| SpendSlots.SignableExactlyWhen | crates/core/src/mlxdr.rs:418-494 | It can be signed exactly when it has them and its signed form can be written as XDR. |
| SpendSlots.SignedCommits | crates/core/src/holding.rs:86-97 | What is handed to the signer begins with the channel, ends in four bytes that weighted 1, 256, 65536, 16777216 sum to the expiration, and has in between the XDR of element 1 of the slot's own payload. |
| SpendSlots.PreimageDetermines | crates/core/src/holding.rs:86-97 | For one channel, equal preimages have equal conditions XDR and equal expiration. |
| SpendSlots.SigningOneSlot | crates/core/src/mlxdr.rs:369-494 | Signing an unsigned Spend leaves it decoding and aggregating as before and carrying its own UTXO, the key's signature over bytes that commit to channel, the slot's own conditions and the expiration, and that expiration, for every u32. |
| HoldingKeys.SearchMeans | crates/api/src/routes/bundles.rs:150-176 | The naive search finds the least index below 200 deriving the key, and says not held exactly when the first 200 all derive others. |
| HoldingKeys.MatchOne | crates/api/src/routes/bundles.rs:150-176 | With any cached prefix the lazy match answers as the naive search; the cache stays a derivation prefix and grows no further than needed. |
| HoldingKeys.MatchKeys | crates/api/src/routes/bundles.rs:150-176 | Carrying the cache across slots answers as searching afresh for each. |
| HoldingKeys.MatchedMeans | crates/api/src/routes/bundles.rs:150-176 | Each wanted key is resolved, in slot order, to the least index deriving it. |
| HoldingKeys.RefusedExactlyWhen | crates/api/src/routes/bundles.rs:150-176 | The match is refused exactly when the search fails for some unsigned spend. |
| HoldingKeys.RefusedAsNotHeld | crates/api/src/routes/bundles.rs:150-176 | If no derivation fails, exactly when some unsigned spend is none of the first 200 keys, and for that reason. |
| Submission.CollectUnsigned | crates/api/src/routes/bundles.rs:121-132 | The loop collects position and UTXO of the unsigned Spend slots, or the first error. |
| Submission.UnsignedLists | crates/api/src/routes/bundles.rs:121-132 | The list names every unsigned slot once, in order, and no other. |
| Submission.SignInPlace | crates/api/src/routes/bundles.rs:188-202 | In-place signing fails with the first slot's error, and otherwise replaces exactly the resolved slots by their signed form. |
| Submission.SignHeldSpends | crates/api/src/routes/bundles.rs:115-204 | The pass is refused for exactly the reasons and in the order of the code; when it is not, every slot is unchanged or signed with the least matching key. |
| Submission.SignsExactlyWhen | crates/api/src/routes/bundles.rs:115-204 | The pass refuses nothing exactly when every slot can be read and, if one is an unsigned spend, there is a channel, an email with something besides white space, a known ledger, a key among the first 200 for every unsigned UTXO, and every unsigned slot can be signed with it. |
| Submission.RefusalsInOrder | crates/api/src/routes/bundles.rs:115-204 | Which reason is given when several hold: an unreadable slot, no channel, no email, a UTXO not found, no ledger, in this order. |
| Submission.PassSigns | crates/api/src/routes/bundles.rs:165-204 | A slot that came unsigned leaves with the signature of the least key that derives its UTXO over bytes that commit to the channel, its own conditions and the expiration, and with that expiration. |
| Submission.SigningPreservesMeaning | crates/api/src/routes/bundles.rs:115-204 | After it no slot is unsigned, classification, fee and aggregation are unchanged, the signatures read back are the old ones plus, slot by slot, the new ones, and each slot that came unsigned is signed by the holder of its UTXO over its own conditions. |
| Submission.PostSubmit | crates/api/src/routes/bundles.rs:40-312 | Every outcome of a submission: which gate or failed read refuses it, in the order of the code, why signing or admission does, or the PENDING row inserted, with its id, a TTL of 86400 seconds after the clock, its slots as signed, channel, submitter and fee. |
| Submission.AdmittedExactlyWhen | crates/api/src/routes/bundles.rs:206-296 | A fee is admitted exactly when all entries are texts that classify, a disabled channel only withdraws, spends have a channel and balances that can be read, and the fee derived is positive and fits the column. |
| Submission.AdmittedConserves | crates/api/src/routes/bundles.rs:206-296 | An admitted bundle has a positive fee that fits the column, conserves value with it given the balances read (none if it spends nothing), and withdraws without depositing on a disabled channel. |
| AuthEntries.ExtractUserEntries | crates/core/src/mlxdr.rs:210-269 | The loop gives the users' entries of the signed Deposit and Withdraw slots in order, or the first error. |
| AuthEntries.GivesExactlyWhen | crates/core/src/mlxdr.rs:210-269 | A slot gives a user's entry exactly when it is a Deposit or Withdraw that names the account first and is followed by a vector that begins with the bytes of that entry. |
| AuthEntries.UsersAreListed | crates/core/src/mlxdr.rs:210-269 | The extraction lists the entry of every slot that carries one, once and in slot order, and no other. |
| AuthEntries.SigningKeepsUserEntries | crates/api/src/routes/bundles.rs:115-204 | Signing held spends leaves the users' own entries as they were. |
| AuthEntries.WalksAgree | crates/core/src/mlxdr.rs:210-680 | The walks agree: slots that classify aggregate, yield their spend signatures, and yield the users' entries exactly when none of those is unreadable, so nothing else admitted can fail to decode at execution. |
| SignatureMap.BuildSignatures | crates/core/src/pipelines/executor.rs:527-626 | The loop over the sorted spends builds the value whose readings the next two rows state. |
| SignatureMap.ContractFinds | crates/core/src/pipelines/executor.rs:527-626 | Under the provider's key the contract finds the provider's signature, under each UTXO the first one the slots carry for it, and nothing under any other. |
| SignatureMap.OrderedExactlyWhen | crates/core/src/pipelines/executor.rs:566-611 | The map keys strictly increase, as the host demands, exactly when no UTXO is signed for twice. |
| SignatureMap.OperationIsOrdered | crates/core/src/mlxdr.rs:566-592 | The argument sent to the channel is a map of four symbol keys that strictly increase, as the host demands. |
| AuthPasses.SpliceEntries | crates/core/src/pipelines/executor.rs:428-453 | The loop over one authorization list: the entries whose positions and values the row SplicingIsPositional states. |
| AuthPasses.SplicingIsPositional | crates/core/src/pipelines/executor.rs:428-453 | Position by position: kept are exactly the entries that are no account's or whose account some user's slot names, in order; each as it was, or for an account the entry of the first slot that names it. |
| AuthPasses.ExpireEntries | crates/core/src/pipelines/executor.rs:325-333 | The loop over one list overwriting the expiration of Contract entries. |
| AuthPasses.SignEntries | crates/core/src/pipelines/executor.rs:497-628 | The loop over one list signing Contract entries, as the row EveryContractEntryIsSigned states. |
| AuthPasses.Transaction.SpliceUserSignedEntries | crates/core/src/pipelines/executor.rs:411-460 | In place: Account entries give way to the first matching user entry or are dropped, all others stay. |
| AuthPasses.Transaction.ExtendFootprintWithUserNonces | crates/core/src/pipelines/executor.rs:350-383 | In place: the footprint gains the users' nonce keys it lacks. |
| AuthPasses.Transaction.SetAuthSignatureExpiration | crates/core/src/pipelines/executor.rs:308-343 | In place: Contract entries get the expiration, others are untouched. |
| AuthPasses.Transaction.SignSorobanAuthEntries | crates/core/src/pipelines/executor.rs:467-637 | In place: Contract entries get the signature value, others are untouched. |
| AuthPasses.Transaction.Authorize | crates/core/src/pipelines/executor.rs:234-277 | The four passes in the executor's order, with the expiration latest ledger plus offset, held at 2^32 - 1. |
| AuthPasses.OnlyAuthChanges | crates/core/src/pipelines/executor.rs:234-277 | Nothing but authorization lists changes in the operations. |
| AuthPasses.AccountEntriesAreTheUsers | crates/core/src/pipelines/executor.rs:234-277 | After all passes the Account entries are, verbatim and in order, the users' entries standing in for the simulation's. |
| AuthPasses.OthersKeptExactlyWhen | crates/core/src/pipelines/executor.rs:411-460 | The simulation's other entries keep order, address, nonce and invocation exactly when every standing-in entry is itself an Account one. |
| AuthPasses.EveryContractEntryIsSigned | crates/core/src/pipelines/executor.rs:467-637 | Every Contract entry of the final list carries the new expiration and, under the provider's key, a signature over the preimage of the network, its own nonce, that expiration and its own invocation, with the users' P256 signatures. |
| AuthPasses.PreimagesDiffer | crates/core/src/pipelines/executor.rs:508-519 | Two entries have equal preimages exactly when nonce, expiration and invocation are equal. |
| AuthPasses.FinalEntries | crates/core/src/pipelines/executor.rs:234-277 | The final list entry by entry: the spliced entry of the same place, unchanged, or for a Contract its own with the provider's expiration and signature. |
| AuthPasses.NamedEntryIsThere | crates/core/src/pipelines/executor.rs:234-277 | An entry of an account that some slot names has the entry of the first such slot in the final list; so a depositor's own entry is there. |
| AuthPasses.FootprintGainsTheNonces | crates/core/src/pipelines/executor.rs:350-383 | The footprint keeps its keys in place and gains each missing nonce key exactly once. |
| AuthPasses.FootprintHolds | crates/core/src/pipelines/executor.rs:350-383 | A key is in the extended footprint exactly when it was there or is the temporary nonce entry of the account that a user's slot names, for the nonce of its entry. |
| AuthPasses.NoncesInFootprintExactlyWhen | crates/core/src/pipelines/executor.rs:234-277 | The nonces that the Account entries of the final list spend are all in the final footprint exactly when each standing-in entry's nonce key was there or belongs to the account that some user's slot names. |
| AuthPasses.SpentNoncesAreInFootprint | crates/core/src/pipelines/executor.rs:234-277 | So they are whenever the users' entries are for the accounts their slots name. |
| ValueWitness.NonceCanBeMissing | crates/core/src/mlxdr.rs:243-269 | Slots admitted for a fee of 100 that name one account and carry the entry of another: its nonce is spent and is not in the footprint. |
| HeldSignatures.HeldSpendsAreAuthorized | crates/core/src/pipelines/executor.rs:200-277 | Submission and execution joined: in every Contract entry of the transaction the contract finds, under the UTXO of each slot that came unsigned, the signature of the least key that derives it over bytes that commit to the channel, that slot's own conditions and the expiration, with that expiration, if no earlier slot is signed for that UTXO. |
| HeldSignatures.AllHeldSpendsAreAuthorized | crates/core/src/pipelines/executor.rs:200-277 | So for every slot that came unsigned, where the host accepts the map of signatures. |
| HeldSignatures.UsersAreAuthorized | crates/core/src/pipelines/executor.rs:200-277 | The final list against the slots as they were submitted: entry by entry the simulation's, an account's replaced by the entry that the first submitted slot naming the account carried, or gone exactly where none names it. |
| ValueWitness.SlotsCanBeWritten | crates/core/src/mlxdr.rs:84-145 | There is a codec that round-trips and under which given operations are written as slots. |
| ValueWitness.ConservationCanFail | crates/api/src/routes/bundles.rs:206-296 | Slots admitted for a fee of 100 whose excess is no i128: on chain they do not balance. |
| ValueWitness.BalanceCanFail | crates/core/src/mlxdr.rs:710-718 | Slots that deposit 100, spend 50 and create 60: admitted for 40, they leave 50 over on chain. |
| ValueWitness.OrderCanFail | crates/core/src/pipelines/executor.rs:566-611 | Slots admitted for a fee of 20 that spend one UTXO twice: the host refuses their signature map. |
| ValueWitness.OthersCanChange | crates/core/src/pipelines/executor.rs:411-460 | Slots admitted for a fee of 100 with a Contract entry in a user's name: the simulation's entries are not the only ones left. |
| HoldingScan.ScanHolding | crates/api/src/routes/holding.rs:49-83 | The loop returns rows in index order with their keys and the balances read up to the first unused batch or the cap, and fails exactly when a batch it reaches fails. |
| HoldingScan.DeriveBatch | crates/api/src/routes/holding.rs:59-62 | Twenty keys in index order, or an error exactly when one of them does not derive. |
| HoldingScan.Count | crates/api/src/routes/holding.rs:114 | One target if none is asked for, the number asked for if it is from 1 to 10, else the nearer bound. |
| HoldingScan.InvThroughout | crates/api/src/routes/holding.rs:49-128 | In every interleaving of scans, payments and requests: CREATEs only on handed-out keys leave fewer than 10 gaps below any of them. |
| HoldingScan.FewNeverUsedBelow | crates/api/src/routes/holding.rs:22-25 | Fewer than ten never-used indices lie below any used one. |
| HoldingScan.UnusedBatchIsPast | crates/api/src/routes/holding.rs:73-81 | Past a wholly unused batch of 20 no key exists. |
| HoldingScan.ScanMissesNone | crates/api/src/routes/holding.rs:49-83 | A finished scan has read as used every key that existed when it began, although its batches are read at different times. |
| HoldingScan.HandedBelowCap | crates/api/src/routes/holding.rs:73-126 | In every run no key at or past the cap is ever handed out. |
| HoldingScan.RunsScan | crates/api/src/routes/holding.rs:49-83 | What a scan of a run has read is what ScanHolding returns on the same answers. |
| HoldingScan.TargetsFailExactlyWhen | crates/api/src/routes/holding.rs:114-126 | A request fails only if fewer than count of the first 200 keys are unused now, surely if fewer were when it began, and exactly then if nothing was created meanwhile. |
| HoldingScan.FreeIsExact | crates/api/src/routes/holding.rs:116-122 | Targets are the indices read as -1, in order. |
| HoldingScan.HeldIsExact | crates/api/src/routes/holding.rs:165-172 | Held rows are exactly the readings above zero, in order. |
| HoldingScan.UsedKeysMayHaveGaps | crates/api/src/routes/holding.rs:6-8 | The used keys need not be contiguous: a run in which 1 is used and 0 is not. |
| Wallet.Keys.DeriveBatch | frontend/src/lib/utxo-derivation.ts:152-157 | Ten fresh unread keys are appended. |
| Wallet.Keys.ReadBatch | frontend/src/lib/utxo-derivation.ts:192-211 | A batch's balances are read into its keys, a reservation ending once the key exists; touched exactly when some key of the batch exists. |
| Wallet.Keys.RefreshBalances | frontend/src/lib/utxo-derivation.ts:186-215 | It terminates on any finite chain, after the first and only count of at least three batches whose last is untouched; the keys read hold the chain's balances, others are as before. |
| Wallet.RereadMeans | frontend/src/lib/utxo-derivation.ts:186-215 | What a refresh leaves: of every key read its balance on chain or none, and a reservation exactly where there was one and the key does not exist; the others as they were. |
| Wallet.BalanceIsChainTotal | frontend/src/lib/utxo-derivation.ts:223-226 | balance() is then the on-chain total if no untouched batch from the third on precedes an existing key. |
| Wallet.BalanceIsChainTotalExactlyWhen | frontend/src/lib/utxo-derivation.ts:223-226 | For a wallet derived no further than it reads, exactly when no coins lie past the stopping point. |
| Wallet.FundedIsExact | frontend/src/lib/utxo-derivation.ts:219-221 | The funded list is every funded unreserved key, in index order. |
| Wallet.Keys.ReserveFreeUtxos | frontend/src/lib/utxo-derivation.ts:238-250 | It terminates with n distinct keys that were free and never handed out before, the first free ones, and reserves them alone. |
| Wallet.Keys.SelectFunded | frontend/src/lib/utxo-derivation.ts:253-264 | The shortest nonempty prefix of the funded keys covering the total, with its change, or null when no prefix covers it. |
| Wallet.SelectionFailsExactlyWhen | frontend/src/lib/utxo-derivation.ts:253-264 | For a positive total selection fails exactly when all funds together fall short, and the change is below the last amount taken. |
| Stroops.ToFromStroops | frontend/src/lib/moonlight-client.ts:54-69 | Parsing a printed amount gives it back exactly when it is not negative. |
| Stroops.ParsesExactlyWhen | frontend/src/lib/moonlight-client.ts:54-58 | A trimmed text is read as an amount exactly when it is digits, or digits, a point and one to seven digits more, and then as those filled up to seven places. |
| Stroops.TrimMeans | frontend/src/lib/moonlight-client.ts:54-58 | Trimming takes blanks off both ends, and all there are. |
| Stroops.PrintsCanonically | frontend/src/lib/moonlight-client.ts:60-69 | A non-negative amount is printed without leading zeros, trailing zeros or a bare point. |
| Stroops.PrintsNegative | frontend/src/lib/moonlight-client.ts:60-69 | A negative one is printed as its absolute value after a minus. |
| Client.TakeOwn | frontend/src/lib/moonlight-client.ts:574-580 | Own keys are taken while the sum falls short. |
| Client.TakeHeld | frontend/src/lib/moonlight-client.ts:581-585 | Held ones are taken while it still falls short. |
| Client.SelectAcrossPools | frontend/src/lib/moonlight-client.ts:570-588 | The fewest amounts, own keys first and held ones only after all of those, that cover the total, or null. |
| Client.PoolsFailExactlyWhen | frontend/src/lib/moonlight-client.ts:570-588 | Null exactly when both pools together fall short; the change is below the last amount taken. |
| Client.PrepareReceive | frontend/src/lib/moonlight-client.ts:270-286 | Reserves count keys and gives the shares, or throws for a count below 1 or above the amount. |
| Client.SharesAddUp | frontend/src/lib/moonlight-client.ts:281-285 | The shares are positive and add up to the amount for every count it can be split into; all are equal but the last, which is larger by less than the count. |
| Client.SlotDecodes | crates/core/src/mlxdr.rs:84-145 | A slot the client writes decodes to its kind, UTXO and amount. |
| Client.SlotsClassify | crates/core/src/mlxdr.rs:668-680 | The client's slots classify to lists with the operations' sums and the spent keys in order. |
| Client.ExcessIsFee | crates/api/src/routes/bundles.rs:206-296 | Operations whose excess is a positive fee are admitted for exactly it and leave nothing over on chain, also after the held spends are signed. |
| ClientBundles.BuildSpends | frontend/src/lib/moonlight-client.ts:596-626 | Each selected key is spent once, conditioned on every output; own ones, and no others, become reserved, and no balance changes. |
| ClientBundles.MakeChange | frontend/src/lib/moonlight-client.ts:482-491 | Positive change goes to one key reserved for it; none is made otherwise. |
| ClientBundles.SubmitSend | frontend/src/lib/moonlight-client.ts:324-378 | Throws only when no prefix of the funded keys covers the total; otherwise outputs, change to a reserved key, spends of the selection. |
| ClientBundles.SubmitFromPools | frontend/src/lib/moonlight-client.ts:459-509 | The same for withdraw and send-to-email over both pools. |
| ClientBundles.SubmitDeposit | frontend/src/lib/moonlight-client.ts:230-260 | A deposit of amount plus fee and a Create of the amount on a reserved key. |
| ClientBundles.SendIsCharged | frontend/src/lib/moonlight-client.ts:324-378 | A send is charged exactly 1000000 stroops, passes admission and balances on chain. |
| ClientBundles.FromPoolsIsCharged | frontend/src/lib/moonlight-client.ts:633-676 | A withdrawal, on a disabled channel too, and a send to an email are charged exactly 1000000 stroops. |
| ClientBundles.DepositIsCharged | frontend/src/lib/moonlight-client.ts:230-260 | A deposit is charged exactly 500000 stroops whenever what is deposited is positive. |
| ClientBundles.HeldGoUpUnsigned | frontend/src/lib/moonlight-client.ts:613-624 | Held spends arrive as unsigned slots the provider can sign, own ones do not. |
| ClientDelivery.SlotsDeliver | crates/core/src/mlxdr.rs:520-680 | The slots of operations classify and aggregate to those operations, kind by kind and in order, with their keys or accounts, amounts and conditions. |
| ClientDelivery.SendDelivers | frontend/src/lib/moonlight-client.ts:324-378 | A send as the provider reads it: one Create per receiver, in order, of the amount on the receiver's key, then at most the change on a key of the wallet's own. |
| ClientDelivery.WithdrawDelivers | frontend/src/lib/moonlight-client.ts:459-509 | A withdrawal as it is read: one Withdraw of the amount to the account, and no Create but the change on a key of the wallet's own. |
| ClientDelivery.EmailDelivers | frontend/src/lib/moonlight-client.ts:633-676 | A send to an email as it is read: first a Create of the amount on the key handed out for it. |
| ClientDelivery.DepositDelivers | frontend/src/lib/moonlight-client.ts:230-260 | A deposit as it is read: amount and fee from the account, on the condition of the Create of the amount on the reserved key, followed by the account's authorization of exactly that. |
| ClientDelivery.SpendsDemandOutputs | frontend/src/lib/moonlight-client.ts:596-626 | Every spend read names its selected key, own ones first, and demands all outputs, the change among them. |
| ClientDelivery.SpendsAreSigned | frontend/src/lib/moonlight-client.ts:596-626 | After its outputs and change the slots of a paid bundle are those spends, each own key's followed by its own signature over those conditions, each held key's by nothing. |
| HeldFunds.HeldIsMatched | crates/api/src/routes/holding.rs:157-177 | A key that the scan lists as held the submit path finds again, at an index no greater, if the derivations up to it succeed, as they did for the scan. |
| HeldFunds.NothingRefuses | crates/api/src/routes/bundles.rs:115-204 | No unsigned spend of a held key is refused by the signing pass; channel, email and ledger are asked for only if there is one. |
| HeldFunds.HeldFundsGoThrough | frontend/src/lib/moonlight-client.ts:459-509 | Every bundle the client pays from own funds and keys the provider holds is signed without refusal, and whatever signing leaves is admitted for exactly its fee and balances with it on chain. An email is needed only to spend held funds. |
| HeldFunds.ScannedFundsGoThrough | crates/api/src/routes/holding.rs:157-177 | Hence every bundle paid from own keys and the rows that a scan of the account listed as held. |
| Nonces.NonceStore.Issue | crates/core/src/auth/sep43.rs:40-64 | Collect, evict the oldest when full, insert: one step of the recorded run. |
| Nonces.NonceStore.Consume | crates/core/src/auth/sep43.rs:66-75 | Collect, remove, accept iff present, for this key and young enough: one step of the recorded run. |
| Nonces.NonceStore.Gc | crates/core/src/auth/sep43.rs:77-80 | Exactly the entries younger than the ttl are kept. |
| Nonces.Oldest | crates/core/src/auth/sep43.rs:47-52 | The evicted entry is one that none is older than. |
| Nonces.NeverMoreThanTheMaximum | crates/core/src/auth/sep43.rs:40-64 | No run ever holds more than 1024 nonces. |
| Nonces.AcceptedOnceForItsKeyInTime | crates/core/src/auth/sep43.rs:66-75 | In every run with fresh nonces a nonce is accepted at most once, only for the key it was issued to and before its ttl. |
| Nonces.OutlivesLaterIssues | crates/core/src/auth/sep43.rs:44-55 | An unconsumed nonce within its ttl is held as long as no more than 1024 nonces, itself included, were issued at its time or later. |
| Nonces.OutlivesFewerThanTheMaximum | crates/core/src/auth/sep43.rs:44-55 | With distinct issue times it outlives any fewer than 1024 later issues. |
| Nonces.ThenItIsAccepted | crates/core/src/auth/sep43.rs:66-75 | Consuming it then succeeds exactly for its own key and in time. |
| Nonces.EvictedByTheMaximum | crates/core/src/auth/sep43.rs:44-55 | The bound is exact: with distinct issue times the 1024th later issue evicts it. |
| EventWatcher.LastWriteStands | crates/core/src/pipelines/event_watcher.rs:268-317 | Over a whole stream the last event to write a status, a channel or a ledger decides it; a change without a ledger leaves the ledger. |
| EventWatcher.EventsMean | crates/core/src/pipelines/event_watcher.rs:268-345 | A provider added is ACTIVE, one removed REJECTED; a changed channel is disabled exactly by the value false and takes the ledger that fits the column, no other channel is touched; nothing else has an effect. |
| EventWatcher.ReplayAfterPrefix | crates/persistence/src/repo.rs:773-793 | Applying a batch again after any prefix of it is the same as applying the batch. |
| EventWatcher.Watcher.RunTick | crates/core/src/pipelines/event_watcher.rs:113-183 | The loop applies the page's events until one fails; the cursor moves only after a whole page with a cursor. |
| EventWatcher.RunsReplay | crates/core/src/pipelines/event_watcher.rs:113-183 | Whatever the pages, aborts and restarts, reading on from the cursor comes to what one pass comes to. |
| EventWatcher.ReplayIsOnePass | crates/core/src/pipelines/event_watcher.rs:113-183 | Whenever the cursor stands at the furthest event ever applied, the tables are those of one in-order pass up to it. |
| EventWatcher.ConsumedIsOnePass | crates/core/src/pipelines/event_watcher.rs:113-183 | Once the stream is consumed, status and channel states, last ledgers included, are those of one pass over it. |

## Left out

- Pipelines.Provider.Interfere: the other tasks are steps of the state machine; it does not run their loops in threads.
- Pipelines.Provider.Send: everything of a submission up to the RPC's answer is one step with an arbitrary outcome; what it computes is in the value pipeline, not tied to the bundle row.
- Pipelines.Provider.MempoolTick: a tick that a failed statement ends is stated by the steps of its parts (Sweep, Promote), not as a whole; the same holds of the verifier's.
- LifecycleOutcome.OutcomesAgree: assumes no aborted verifier tick and no final RPC answer for a transaction not yet linked, because create and link are two statements; the other cases are settled by AgreesOrStranded and StrandsExactlyWhen.
- LifecycleFifo.PromotionsInOrder: rows of equal created_at may come in either order, as the database may list them.
- ClientBundles.FromPoolsIsCharged: the balances the selection counted on are taken to be those on chain, the client's own refresh being stated in Wallet.
- Wallet.Keys.RefreshBalances: the chain does not change during one refresh, and balances read earlier are of keys that exist on it, so of the same channel.
- HoldingScan.ScanHolding: the contract answers one balance for each key asked for, as the client's refresh also assumes.
- HeldFunds.HeldFundsGoThrough: takes it that the conditions and the slots as signed encode and that the client's own spends carry a signature.
- Nonces.EvictedByTheMaximum: for distinct issue times; which of several equally old entries is evicted depends on the map's order and is left open.
- Statements that fail are taken to have no effect; a lost acknowledgement is not modelled.
- Submission.PostSubmit: the record of rejected submitters and the JSON it answers with are not modelled; the failing reads and the INSERT answer one error.
- Deletion marks, updated_at, updated_by and failure texts of table rows; the different texts of one error kind.
- Events, broadcasts, bundle summaries, metrics and the operator's listings.
- VecM, BytesM and StringM length limits, which no modelled list can reach short of 2^32 elements.
- Resource inflation, the envelope signature and the transaction builder of the executor.
- Collection of the nonce table reads the clock once per operation here, once per entry in the code.
- Several councils in one watcher, retention gaps, and convergence by query, which is a second writer of the same tables.
- The client's seed setup: operations before it throw, and clearing it starts a new wallet.
- One channel per set of derived keys; switching channels keeps stale balances.
- Errors of the ledger query and of bundle submission in the client, and the trustline check.
- HTTP routing, sessions, JWTs, SEP-10, WebSockets, configuration and the user interface.
- Hashes, ids and account keys are tokens or byte strings compared for equality; moonlight-sdk is not part of this model beyond the slot layout.
