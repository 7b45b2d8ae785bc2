# BrollyZapper: proofs about its guard and its payment path

BrollyZapper lets a Lightning node receive, and if its operator allows it send, through a
server that is assumed to be compromised some day. A second process, the guard, holds the
node's admin credential. It bakes the restricted credentials the server uses, keeps the
switch and the two caps on sending, and sits in the node's request path as a middleware.
These modules model that machinery as state machines and imperative classes and prove what
they keep over every run.

| file | what it models |
|---|---|
| `RootKeys.dfy` | the root-key protocol over four stores that fail on their own: the node's key set, the guard's state file, each credential file, each sidecar |
| `CredentialGuard.dfy` | `bake`, the sweeps, `RevokeSpend`, `EnsureSpendMacaroon` and the rest, statement by statement, each a run of that protocol |
| `Ceremony.dfy` | one-time grants, the three controls they loosen, and every interleaving of connections at the grain of the two locks |
| `Sending.dfy` | the two machines joined on the latch they share |
| `OperatorGuard.dfy` | `RequestAuthorisation`, `redeem`, `sweepExpired`, `ApplyChange` and the codes, each a run of the ceremony |
| `SpendCap.dfy` | pricing in 64-bit arithmetic, the rolling window, and the refund of an observed failure |
| `Payments.dfy` | one outbound reservation: the paying call, any number of resolver passes, the store, a node that can lose records, and crashes |
| `PaymentDesk.dfy` | `payInvoice`, `resolveOne`, `resolvePendingPayments` and the stream readers they use, each a run of that machine |
| `RotationDetection.dfy` | the detector's counter against the whole history of calls |
| `ExitMemory.dfy`, `RotationGuard.dfy` | the rotation exit's memory: a stored hash, a flag and an atomic counter under the state lock, over restarts |
| `Relink.dfy` | what stream outcomes and per-request calls make of the state the Node page shows |
| `InvoiceStream.dfy` | the invoice subscription: resume point, idempotent handler, backoff, reconnect loop |
| `RateLimit.dfy` | the two-window limiter, its slices compacted in place |
| `Grpc.dfy`, `Int64.dfy`, `Wrappers.dfy` | status codes, wrapping integers, `Option` |

Each protocol is a `World`, an `Action` with its guard `Can` and its effect `Do`, and `Run`: a
sequence of worlds joined by steps. The classes carry the run they have made as ghost state,
so what is proved of every run of the machine holds of every execution of the class.
An operation called with `works` meets no failure of the node, the store or the disk, though
everything else goes on moving around it, and its contract then says what it has to achieve.

## What the proofs found

Where a promise is false as it is worded, a lemma shows a run that breaks it, and the promise
is proved under the condition that run violates.

- A sweep can take the key of a credential file on disk: exactly when that key is pending and
  the file's own sidecar names another (`OrphanSweepTakesFileKeyIff`,
  `BakeSweepTakesFileKeyIff`). Two bakes of one kind lead there, the first stopped after its
  macaroon and the second between its sidecar and its macaroon (`TearIsASecondStop`, and the
  run `TornFileIsSwept`).
- `RevokeSpend` does not stop at a receive credential with no sidecar, which `sweepOrphans`
  does, and so can take the receive key away (`RevokeSpendTakesUnnamedReceiveKey`, and exactly
  when in `EndingSweepTakesReceiveKeyIff`).
- A spend bake that had passed the permission check mints after a revocation
  (`RacedBakeMints`), and that is all that can (`AlwaysRevokedIff`).
- A state save cut short while a grant is ending leaves a live grant with no file
  (`CutWriteLeaves`); the comment at `internal/guard/operator.go:648-656` says the order rules
  that out.
- What the node still holds of an earlier attempt at an invoice decides three promises about
  the next one, each exactly. Any attempt, and the connection's budget can be given back twice,
  by the ladder and by the resolver (`CorrectsRightlyIff`, `RetryIsRefundedTwice`); the comment
  at `cmd/brollyzapper/nwc.go:438-441` says it cannot double up. A failed one, and a payment
  that settles can be reversed (`ReversesRightlyIff`, `StaleRecordReversesAPayment`). A settled
  one, and it can be booked again (`SettlesRightlyIff`, `EarlierPaymentIsBookedAgain`).
- A payment still in flight when the resolver's five minutes are over is corrected by both
  calls (`OverlapCorrectsTwice`), and a pass that read its row too early can reverse it
  (`OverlapReversesAPayment`).
- A request that succeeds while a stream refusal is being judged lets one refusal restore
  re-link (`OneRefusalOverASuccess`): exactly when re-link stood as that refusal was judged and
  the outcome before it was no such refusal (`EntersUnconfirmedIff`).
- An accepted call that is slow to reach the state lock lets the guard exit twice over the same
  bytes with no call accepted in between (`SlowAcceptanceAllowsASecondExit`): exactly when a
  call counted before still has the lock to take (`ExitsAgainIff`).
- The limiter's clock is read before its lock, so a call can come in behind a later one. It then
  counts only what the key's bucket still holds, which is the whole history exactly when the
  last hit dropped is outside the window too (`WhatALateCallCounts`).

## Model

| member | source | states |
|---|---|---|
| `RootKeys.NoKeyIsLost` | internal/guard/guard.go:355-491 | wherever a run of bakes, sweeps, revocations, failures and crashes stops, a key the guard chose and the node still honours is pending or a current key |
| `RootKeys.StepKeepsInv` | internal/guard/guard.go:355-491 | every atomic step, a stop or crash between any two included, keeps the protocol's invariant |
| `RootKeys.OrphanSweepTakesFileKeyIff` | internal/guard/orphans.go:121-164 | an orphan sweep takes a credential file's key only if that key was pending and the file's own sidecar misnamed it when the sweep began, and a whole answered sweep takes every such key |
| `RootKeys.BakeSweepTakesFileKeyIff` | internal/guard/guard.go:478-491 | the same of the sweep that ends a bake, for either credential's file |
| `RootKeys.SweepSettles` | internal/guard/guard.go:579-595 | over any interleaving a sweep reaches its ids in order and takes one only if it reached it and neither spares nor leaves it |
| `RootKeys.UnattendedSweepSparesFiles` | internal/guard/orphans.go:121-164 | until the first tear no orphan sweep and no sweep ending a bake takes a file's key, at any step of it |
| `RootKeys.UntornFilesDoNotStray` | internal/guard/guard.go:396-402 | until the first tear a file is misnamed only between its own sidecar and macaroon writes |
| `RootKeys.TearIsASecondStop` | internal/guard/guard.go:396-423 | a tear stops a bake between sidecar and macaroon over a file whose own bake, of the same credential, an earlier step of the run had stopped after its macaroon and before its state write |
| `RootKeys.UnrecordedFileWasStopped` | internal/guard/guard.go:400-423 | a file whose key is pending was written by a bake still under way or stopped just there |
| `RootKeys.TornFileIsSwept` | internal/guard/orphans.go:121-164 | a run from a fresh install that reaches such a file and loses its key |
| `RootKeys.EndingSweepTakesReceiveKeyIff` | internal/guard/spend.go:265-294 | a whole answered sweep that ends sending takes the receive file's key exactly when it was pending and no sidecar named it |
| `RootKeys.RevokeSpendTakesUnnamedReceiveKey` | internal/guard/spend.go:126-222 | a run in which ending sending revokes the live receive credential while the orphan sweep may not start |
| `RootKeys.CommitSettles` | internal/guard/guard.go:422-435 | the state write that ends a bake leaves its key current and not pending, the key it replaces pending, nothing forgotten, and the other credential's record alone |
| `RootKeys.ReplacedIsNotSpared` | internal/guard/guard.go:422-491 | the key a bake replaces is named by no sidecar and was not pending, so the bake's own sweep asks for it |
| `RootKeys.RevokedStaysRevoked` | internal/guard/spend.go:284-294 | after the write that ends sending, with no bake past the check, no spend key is chosen until a grant turns the latch on |
| `RootKeys.AlwaysRevokedIff` | internal/guard/spend.go:28-37 | with the latch off no run chooses a spend key before a grant, exactly when no spend bake has passed the check and is still to take the lock |
| `RootKeys.GateBoundsSpendBakes` | internal/guard/spend.go:28-37 | while the latch is off each spend key chosen uses up one bake that had passed the check before |
| `RootKeys.RacedBakeMints` | internal/guard/guard.go:307-315 | a bake past the check when sending ends mints a live spend key with the latch off |
| `Sending.NewSpendKeyNeedsAGrant` | internal/guard/operator.go:470-506 | in a joint run of both machines a spend key chosen after sending ended is preceded by a commit turning sending on, against a grant for just that which the same call found unexpired, matched and consumed |
| `Sending.GrantReopensSending` | internal/guard/spend.go:28-37 | and after such a grant a spend key is chosen again |
| `RootKeys.Keep` | internal/guard/guard.go:431-432 | the ids of a pending list that satisfy a test, no more and no fewer |
| `CredentialGuard.Guard.LosesNoKey` | internal/guard/guard.go:355-491 | at every point of an execution of the guard's operations no key is lost |
| `CredentialGuard.Guard.CeilingHolds` | internal/guard/spend.go:28-37 | on a deployment that forbids sending no spend key is chosen in a whole execution, whatever the latch |
| `CredentialGuard.Guard.NewRootKeyID` | internal/guard/rootkey.go:16-54 | of eight draws the first id the node is not using, never zero, and none exactly when every one drawn is in use |
| `CredentialGuard.Guard.Bake` | internal/guard/guard.go:307-492 | done means file, sidecar and state name one new id that is not pending, the other credential untouched; refused means the node still honours the current key. With no failure it is refused, done or failed exactly as the node's keys and the draws say, the replaced key is gone, and only what had to be spared is pending |
| `CredentialGuard.Guard.Record` | internal/guard/guard.go:360-364 | the id is pending, and nothing else recorded, before the node is asked for anything |
| `CredentialGuard.Guard.Mint` | internal/guard/guard.go:365-388 | whether or not the node made the key of a call that failed, the record stands and its id is pending |
| `CredentialGuard.Guard.WriteTheSidecar` | internal/guard/guard.go:396-399 | the sidecar names the new id while the macaroon is still the old one |
| `CredentialGuard.Guard.WriteTheMacaroon` | internal/guard/guard.go:400-402 | then file and sidecar agree, or neither has changed |
| `CredentialGuard.Guard.SaveTheBake` | internal/guard/guard.go:422-435 | one write makes the id current and the one it replaces pending, and forgets no other; or nothing of the record changes |
| `CredentialGuard.Guard.SweepAfterBake` | internal/guard/guard.go:478-491 | the bake's own sweep only ever shortens the pending list and moves no credential of its kind |
| `CredentialGuard.Guard.SweepPending` | internal/guard/guard.go:579-595 | keeps, in order, exactly the ids it spares and those it was not told are gone; gone is zero, the current key, or a key not at the node |
| `CredentialGuard.Guard.RevokePrevious` | internal/guard/guard.go:615-638 | gone is said only of a key absent from the node, of zero, or of the current key |
| `CredentialGuard.Guard.RevokeSpend` | internal/guard/spend.go:126-222 | done is never said while the node honours the recorded key; the record is left as it was or sending is forgotten, and a failure with a key recorded leaves it. With no failure sending is forgotten, the file gone, and nothing pending but what the receive sidecar names |
| `CredentialGuard.Guard.SweepAndForgetSpend` | internal/guard/spend.go:265-294 | one write forgets the spend key, drops the latch and makes no id pending that was not, keeping what the receive sidecar names, or nothing of the record changes |
| `CredentialGuard.Guard.AcceptExternalRevocation` | internal/guard/spend.go:505-543 | a revocation noticed for a key that is no longer the recorded one is dropped |
| `CredentialGuard.Guard.BakeSpend` | internal/guard/spend.go:28-37 | refused with nothing changed when the deployment forbids sending or the latch is off; otherwise, with no failure, a bake |
| `CredentialGuard.Guard.EnsureSpendMacaroon` | internal/guard/spend.go:309-448 | a renewal tick, counted as past the check from the moment it reads the permission, chooses no spend key when the deployment forbids sending or the latch is off, then touches nothing unless the file is obsolete, and never turns the latch on; permitted and with no failure it renews what needs it and ends sending when the node has dropped the key |
| `CredentialGuard.Guard.ReplaceOrRevokeObsolete` | internal/guard/spend.go:429-448 | an obsolete spend file where sending is not permitted: done means sending is forgotten and the recorded key is not at the node |
| `CredentialGuard.Guard.SweepOrphans` | internal/guard/orphans.go:121-164 | refused exactly when nothing is pending or a credential on disk has no sidecar; otherwise only pending ids go, never one a sidecar names, and with no failure all others |
| `Ceremony.EveryLooseningSpendsAGrant` | internal/guard/operator.go:470-506 | a step that turns sending on or raises a cap commits exactly the change of a grant the same call found unexpired, matched and consumed |
| `Ceremony.NoGrantBacksTwoLoosenings` | internal/guard/operator.go:605-675 | two loosenings spent two different grants |
| `Ceremony.FateIsFinal` | internal/guard/operator.go:738-820 | a grant that ended stays ended, for the reason it ended, and is not stored again |
| `Ceremony.FatesAreTrue` | internal/guard/operator.go:605-820 | the reason an ended grant carries is what the step that ended it found |
| `Ceremony.GrantsAreConserved` | internal/guard/operator.go:817-820 | every grant ever issued is the one stored or has ended, never both |
| `Ceremony.AtMostTwoWrongCodes` | internal/guard/operator.go:605-675 | the attempts on a grant's row are the wrong codes recorded against it, and it survives at most two |
| `Ceremony.FirstTwoWrongCodesAreForgiven` | internal/guard/operator.go:605-675 | when exactly a grant is honoured, forgiven a wrong code, found to be for another change, or lapsed |
| `Ceremony.CapPairHolds` | internal/guard/operator.go:534-575 | the per-payment cap never exceeds the window cap, under any interleaving |
| `Ceremony.QuestionsAreAboutTheEffect` | internal/guard/operator.go:158-199 | a change loosens, is already had, or is allowed by the cap pair, exactly when applying it would leave some control looser, move nothing, or leave the pair in order; an unknown control loosens |
| `Ceremony.CommitSetsTheControl` | internal/guard/operator.go:190-199 | at every saved commit of a run the control its change names takes the change's value and the other two stay; no other step but the end of sending moves a control |
| `Ceremony.FileAgreesWithRow` | internal/guard/operator.go:336-354 | while writes are whole, the operator's file exists exactly when a grant is stored and shows its change and code |
| `Ceremony.CutWriteLeaves` | internal/guard/operator.go:657-659 | what a write cut after its file half leaves behind, for each of the three writes |
| `OperatorGuard.CodeSpellsOneGrant` | internal/guard/authorisation.go:156-169 | typed in any case, with dashes or none, between any white space, a code redeems exactly the grant whose symbols it spells |
| `OperatorGuard.NewCode` | internal/guard/authorisation.go:136-150 | eight symbols of the alphabet, grouped, each the one its random byte draws |
| `OperatorGuard.AlphabetHasNoRepeats` | internal/guard/authorisation.go:136-150 | the 32 symbols are distinct, so that every symbol is drawn by as many bytes |
| `OperatorGuard.Operator.WriteGrant` | internal/guard/operator.go:336-354 | the row changes only with the file already showing the new grant; a failure of either write keeps the grant stored before |
| `OperatorGuard.Operator.SweepExpired` | internal/guard/operator.go:738-771 | only the grant stored under the lock goes, and only if it has timed out |
| `OperatorGuard.Operator.RedeemStored` | internal/guard/operator.go:605-675 | the verdict is about the grant stored under the lock; the right code for its change before it lapses is honoured, and consumed if the save is made; a wrong code costs one attempt |
| `OperatorGuard.Operator.RequestAuthorisation` | internal/guard/operator.go:242-399 | refused exactly when the change is invalid, loosens nothing or breaks the cap pair; otherwise a grant for it, good for ten minutes, is stored and shown, unless a write fails |
| `OperatorGuard.Operator.ApplyChange` | internal/guard/operator.go:470-506 | applied means the control the change names holds its value and the other two are as they were; only a loosening that no unexpired grant for it with that code backs is refused; and a loosening was let through by a grant this call consumed, with other connections running in between |
| `SpendCap.PriceAttempt` | internal/guard/spendcap.go:268-309 | a price exactly for a countable request: the amount the invoice names, or else the request in msat or satoshis, plus the fee limit in msat or satoshis, between 1 and 2^62 |
| `SpendCap.CountableIff` | internal/guard/spendcap.go:268-318 | exactly which requests are countable, in their own fields |
| `SpendCap.UncheckedSatsWrap` | internal/guard/spendcap.go:316 | without the check before the multiply a satoshi figure wraps to a small price |
| `SpendCap.SpendWindowUsed` | internal/guard/spendcap.go:67-78 | the records younger than a day and their sum, with no wrap |
| `SpendCap.ComparisonIsTrueIff` | internal/guard/spendcap.go:149-170 | the comparison with the cap is the true one exactly when the sum fits the machine |
| `SpendCap.RollingCap` | internal/guard/spendcap.go:105-183 | at every instant, what was admitted in the day ending then and not given back is within the window cap in force at the last admission |
| `SpendCap.Cap.NeverFailedIsCapped` | internal/guard/spendcap.go:198-239 | and so is what was admitted under keys the node reported no failure for, by every run of the guard |
| `SpendCap.NothingBeforeTheFirst` | internal/guard/spendcap.go:105-183 | and nothing is spent before the first admission |
| `SpendCap.AdmissionKeepsLedger` | internal/guard/spendcap.go:149-170 | an admission that fits the records still held fits the whole history |
| `SpendCap.RefundKeepsLedger` | internal/guard/spendcap.go:213-228 | a refund breaks no admission made after the one it gives back |
| `SpendCap.RefundIsWithoutFirst` | internal/guard/spendcap.go:213-228 | removing the first record of a key is giving one admission back in the history |
| `SpendCap.GivesBackAtMostOne` | internal/guard/spendcap.go:381-383 | a failure gives back at most one admission, and none made by another run of the guard or on another stream |
| `SpendCap.GivesBackThisOneIff` | internal/guard/spendcap.go:213-228 | an admission is given back exactly when it is the first still held under the failure's key, also when a request number repeats on a stream |
| `SpendCap.TheFailedOneIsGivenBack` | internal/guard/spendcap.go:213-228 | while no number repeats that is the admission that failed, and no other |
| `SpendCap.Cap.InterceptRequest` | internal/guard/spendcap.go:105-183 | a payment is let through exactly when it can be read and priced, fits both caps and the record bound, and its record was saved: the amount it names plus its fee limit is within the payment cap, and within the window cap with the day's records; a refusal records nothing |
| `SpendCap.Cap.CountAttempt` | internal/guard/spendcap.go:147-170 | deciding and recording are one write |
| `SpendCap.Cap.RemoveOne` | internal/guard/spendcap.go:214-228 | since no record is worth nothing, the loop's test removes the first record of the key and says what it was worth |
| `SpendCap.Cap.ObserveResponse` | internal/guard/spendcap.go:198-239 | an observed failure, and nothing else, gives a record back, under this run's and this stream's key |
| `SpendCap.Cap.Restart` | internal/guard/spendcap.go:381-383 | after a restart no record carries the guard's key |
| `Payments.ReversesRightlyIff` | cmd/brollyzapper/payments.go:494-610 | in every run without a misread error, an early pruning or an overlap a reversed row belongs to a payment the node reported failed or never initiates, exactly when the node holds no failed attempt at the invoice from before |
| `Payments.NoSettledPaymentIsReversed` | cmd/brollyzapper/payments.go:494-610 | and run by run, also after a failed attempt, unless its record answered while the request was on its way |
| `Payments.SettlesRightlyIff` | cmd/brollyzapper/payments.go:369-383 | in every run, whatever the faults, a settled row carries what this payment cost, exactly when the node holds no payment of the invoice from before |
| `Payments.SettledRowsCarryTheNodesFee` | internal/store/balance.go:696-766 | a settled row's fee is within the reserve, and with its excess, which there is only above a full reserve, is the node's fee: this attempt's unless an earlier record answered |
| `Payments.NothingSentIsTheTruth` | cmd/brollyzapper/payments.go:165-302 | with no misread error and no record pruned before the question, a caller told that nothing was sent was told the truth for good |
| `Payments.OnlyOtherErrorsAreAskedAbout` | internal/lnd/payments.go:245-259 | exactly six codes, and an end that is no status, leave the payment unclear; any other error is followed by the question |
| `Payments.ToldNothingAfter` | cmd/brollyzapper/payments.go:165-302 | nobody is told that nothing was sent but after such a question, or when the request never left |
| `Payments.CorrectsRightlyIff` | cmd/brollyzapper/payments.go:667-698 | in every run without a misread error or an overlap the budget is corrected at most once, to amount and fee for a row the code settled and to nothing for any other, exactly when the node holds no attempt at the invoice from before |
| `Payments.BudgetIsCorrectedAtMostOnce` | cmd/brollyzapper/payments.go:667-698 | and run by run whenever no earlier record answered, though the node lose any record at any time |
| `Payments.TheCounterNets` | internal/nwc/pay.go:898-903 | once corrected, the connection's counter stands at the amount and the fee the node reports, or at nothing, and then the payment failed or is never made |
| `Payments.FirstAttemptHearsOfNoOther` | cmd/brollyzapper/payments.go:494-610 | a first attempt at its invoice, or one whose hash cannot be read, is never answered from an earlier record |
| `Payments.TheLedgerNets` | internal/store/balance.go:696-783 | the balance entries of a reservation come to minus amount and actual fee when settled, zero when reversed, also when the fee exceeds the reserve |
| `Payments.NotFoundNeverReversesADispatchedRow` | cmd/brollyzapper/payments.go:519-570 | where no pass overlaps the call, the not-found reversal never meets a row marked as handed to the node |
| `Payments.RowIsFinal` | internal/store/balance.go:792-820 | a closed row and its entries stay as they were closed |
| `Payments.StaleRecordReversesAPayment` | cmd/brollyzapper/payments.go:494-610 | for every reservation after a failed attempt, a run that reverses a payment which settles at any given fee |
| `Payments.RetryIsRefundedTwice` | cmd/brollyzapper/nwc.go:424-446 | for every reservation after an earlier attempt, a run in which the ladder and the resolver both correct the budget |
| `Payments.OverlapCorrectsTwice` | internal/wallet/wallet.go:140-180 | for every reservation, a run in which a payment in flight past the cutoff is corrected twice |
| `Payments.OverlapReversesAPayment` | internal/wallet/wallet.go:150-180 | for every reservation, a run in which a pass that read the row before it was marked reverses a payment that settles |
| `Payments.MisreadErrorIsToldAsNothingSent` | internal/lnd/payments.go:245-259 | for every reservation, a run through the residual error no rule over codes can classify, told as nothing sent and reversed, and the payment settles |
| `Payments.MisreadErrorCorrectsTwice` | internal/lnd/payments.go:245-259 | and one in which both calls correct the budget |
| `Payments.PrunedRecordIsToldAsNothingSent` | cmd/brollyzapper/payments.go:338-352 | for every reservation of an invoice not paid before, a run in which a record deleted before the question is asked ends the same way |
| `Payments.EarlierPaymentIsBookedAgain` | cmd/brollyzapper/payments.go:494-610 | for every reservation of an invoice paid before, a run in which that settlement is booked on it though nothing is sent |
| `PaymentDesk.Consume` | internal/lnd/payments.go:320-344 | the loop comes to what the whole stream says |
| `PaymentDesk.FirstWordDecides` | internal/lnd/payments.go:320-357 | the first terminal update or error decides, whatever follows: an end is that end, NotFound alone is no record, any other error is no answer |
| `PaymentDesk.AnUnfinishedStreamIsAnError` | internal/lnd/payments.go:324-327 | a stream that ends with the payment in flight is an error, not an answer |
| `PaymentDesk.HasPayment` | internal/lnd/payments.go:283-306 | answers at the first message, never against the node's record or against what the whole stream would say |
| `PaymentDesk.OutcomeIsTheNodes` | internal/lnd/payments.go:320-357 | the end or the absence read off any stream a truthful node sends is the node's own |
| `PaymentDesk.Reservation.PayInvoice` | cmd/brollyzapper/payments.go:165-302 | every answer ties to the row and to the node: an end is the node's, nothing sent is never initiated, anything unclear leaves the row pending; with no failure the request is handed over and an end is booked |
| `PaymentDesk.Reservation.NeverInitiated` | cmd/brollyzapper/payments.go:338-352 | true only on the node's word that it has no such payment |
| `PaymentDesk.Reservation.CloseReservation` | cmd/brollyzapper/payments.go:369-418 | closed is said only by the call that closed the row |
| `PaymentDesk.Reservation.PayForClient` | internal/nwc/pay.go:475-563 | a wallet app's whole payment, a refused reservation's release included: corrected at most once, and then the connection's counter holds amount and fee of a payment that settled and nothing otherwise |
| `PaymentDesk.Reservation.ResolveOne` | cmd/brollyzapper/payments.go:494-610 | one pass is made to its end: it settles at the node's fee, reverses on the node's word or an unmarked absence, or leaves the row and the budget alone, and corrects the budget by what it booked; with no failure the node's record and the marker say exactly which |
| `PaymentDesk.Reservation.CountAttempt` | cmd/brollyzapper/payments.go:620-635 | of the failed passes counted in a row the fifth names the row for the operator, and no earlier one does |
| `PaymentDesk.Reservation.BookResult` | cmd/brollyzapper/payments.go:585-610 | only the call that closed the row corrects the budget |
| `PaymentDesk.Reservation.CorrectConnectionBudget` | cmd/brollyzapper/payments.go:667-698 | one entry at most: fee less reserve for a settled payment, the whole charge off for any other |
| `PaymentDesk.ResolvePendingPayments` | cmd/brollyzapper/payments.go:469-492 | every row has had exactly one more pass, to its end, whatever became of the others; what is reported is how many of those passes failed, and none means no row left pending |
| `RotationDetection.Detector.ProbeFailed` | internal/guard/rotation.go:108-118 | trips exactly when the last threshold probes since the last success came each within the window of the one before |
| `RotationDetection.NextRun` | internal/guard/rotation.go:108-118 | the longest such run grows by a probe, or starts again at it after a gap |
| `RotationDetection.ProbesAreSinceTheSuccess` | internal/guard/rotation.go:108-135 | what counts is every rejected probe after the last success, and nothing else |
| `RotationDetection.CallersDoNotCount` | internal/guard/rotation.go:79-83 | however many rejections callers meet, the run does not move |
| `RotationDetection.Detector.Rejected` | internal/guard/rotation.go:79-83 | arms the detector and advances nothing |
| `RotationDetection.Detector.Success` | internal/guard/rotation.go:129-135 | ends the run and disarms |
| `RotationDetection.Detector.Armed` | internal/guard/rotation.go:87-91 | a caller met a rejection and nothing has succeeded since |
| `ExitMemory.NoHoldOutlivesASuccess` | internal/guard/rotationmemory.go:128-144 | once an acceptance has finished, the hold is up only if a probe sent after it was counted put it up |
| `ExitMemory.HoldStep` | internal/guard/rotationmemory.go:61-87 | every lock-grain step, acceptances counted inside another call's lock included, keeps the invariant behind it |
| `ExitMemory.OneExitPerRotation` | internal/guard/rotationmemory.go:61-87 | over restarts, between a recorded exit and the next over the same bytes an accepted call, counted before or after the first, cleared the memory, or the guard started over or recorded an exit over other bytes |
| `ExitMemory.ExitsAgainIff` | internal/guard/rotationmemory.go:128-144 | from any state with the lock free that remembers an exit, the guard can exit over the same bytes again with no call accepted, no start over other bytes and no exit over other bytes in between, exactly when a call counted before has still to take the lock |
| `ExitMemory.MemoryIsAnExit` | internal/guard/rotationmemory.go:61-87 | what is remembered is an exit that was taken and recorded |
| `ExitMemory.SlowAcceptanceAllowsASecondExit` | internal/guard/rotationmemory.go:128-144 | for every such state and every such call, the run that exits again |
| `RotationGuard.Memory.RecordRotationExit` | internal/guard/rotationmemory.go:61-87 | what was found under the lock decides: stale exactly when a call was accepted since the probe went out, held or a hold begun when the stored hash is the mounted one, and an exit, remembered if the state can be saved, in every other case |
| `RotationGuard.Memory.RejectedProbe` | internal/guard/guard.go:991-1021 | a probe sent and then judged, other calls in between: stale means one was accepted since it was sent, and a hold it begins is its own |
| `RotationGuard.Memory.NodeAccepted` | internal/guard/rotationmemory.go:128-144 | leaves no hold, also when the state will not load or save, and no memory when it will |
| `RotationGuard.Memory.Start` | internal/guard/rotationmemory.go:156-178 | an unreadable or unchanged mount leaves the memory alone, and any other forgets it |
| `Relink.RelinkNeedsTwoRefusals` | internal/lnd/client.go:300-379 | entering re-link takes a verdict code, or two consecutive undelivered refusals while the stage admits calls, or a refusal judged, at a step given, while re-link still stood and put back over a request's answer |
| `Relink.EntersUnconfirmedIff` | internal/lnd/client.go:368-379 | from any state whose suspicion is the last outcome's, judging an outcome can end in re-link entered with neither a verdict nor two refusals, exactly when re-link stands, the outcome is an admitted refusal, and the one before it is not |
| `Relink.SecondRefusalIsRelink` | internal/lnd/client.go:368-379 | two such refusals with no other call between reach re-link |
| `Relink.OneRefusalOverASuccess` | internal/lnd/client.go:412-424 | for every such state and outcome, the run that enters so |
| `Relink.VerdictsAreRefusals` | internal/lnd/client.go:528-580 | the verdict codes are refusals, the codes of an absent node are not, and four codes are left to the stage |
| `Relink.SuspicionsAndVerdicts` | internal/lnd/client.go:300-379 | exactly which outcomes raise a suspicion and which are a verdict, in code, credential, delivery and stage |
| `InvoiceStream.Receiver.NoSettlementIsPassed` | internal/lnd/stream.go:139-180 | every settlement at or below the stored index had its handler return without error |
| `InvoiceStream.Receiver.EachOnceAndInOrder` | internal/lnd/stream.go:139-180 | the handler's effects are the node's settlements from the first on, each once, in order, and none else |
| `InvoiceStream.ResumesWhereItStopped` | internal/lnd/stream.go:149-153 | a subscription at the stored index brings exactly the settlements not handled |
| `InvoiceStream.OnePastSkips` | internal/lnd/stream.go:149-153 | subscribing one past it loses a settlement |
| `InvoiceStream.Receiver.StreamOnce` | internal/lnd/stream.go:139-180 | over deliveries, handler and store failures and drops the resume point only grows and nothing is passed; with no failure every settlement the stream brings is handled and stored |
| `InvoiceStream.Receiver.Deliver` | internal/lnd/stream.go:170-178 | a settlement delivered is handled and its index stored before the stream goes on |
| `InvoiceStream.Receiver.Handle` | internal/lnd/stream.go:26-30 | a redelivered settlement is not posted again, and an error may follow the posting |
| `InvoiceStream.Receiver.JudgeOutcome` | internal/lnd/client.go:300-379 | the state an outcome comes to, arm by arm; the suspicion is taken by every outcome and set only by a refusal that needs a second |
| `InvoiceStream.Receiver.ObserveRequest` | internal/lnd/client.go:412-424 | an answer means ready, no credential not linked, a dial ends only not linked, and any other failure moves nothing |
| `InvoiceStream.Receiver.Wait` | internal/lnd/stream.go:66-99 | while a suspicion stands the wait is the minimum, and a local failure ends it |
| `InvoiceStream.Receiver.RunInvoiceStream` | internal/lnd/stream.go:38-103 | a second stream is refused and changes nothing; each wait is after as many failures in a row as there were, and the loop keeps every promise above |
| `InvoiceStream.BackoffDelay` | internal/lnd/stream.go:200-212 | the minimum doubled once an attempt, up to the maximum, with no wrap for any number of attempts |
| `InvoiceStream.DoublingPastTheRangeWraps` | internal/lnd/stream.go:200-212 | a maximum past half the range is not safe |
| `RateLimit.Limiter.AllowKey` | internal/api/ratelimit.go:118-149 | while clocks do not go back admits exactly when counting every hit ever admitted finds room in both windows; a call behind the latest one goes by what its bucket holds |
| `RateLimit.Limiter.WhatALateCallCounts` | internal/api/ratelimit.go:118-149 | a late call counts the history less a beginning at least an hour older than the latest call, and that is the whole count exactly when the last hit of that beginning is outside the window |
| `RateLimit.CountsAgreeIff` | internal/api/ratelimit.go:125-135 | a bucket that is the end of its history counts as the history does exactly from its last dropped hit on |
| `RateLimit.CountAfterCounts` | internal/api/ratelimit.go:125-135 | what is counted is the hits of that key later than the cutoff in the whole history |
| `RateLimit.Limiter.BucketsAreAlive` | internal/api/ratelimit.go:157-169 | every bucket kept has a hit newer than 61 minutes before the latest call |
| `RateLimit.Limiter.Sweep` | internal/api/ratelimit.go:157-169 | at most once a minute, and then exactly the buckets whose newest hit is an hour old go |
| `RateLimit.SweepKeepsAgreed` | internal/api/ratelimit.go:157-169 | dropping those changes no answer from then on |
| `RateLimit.Compact` | internal/api/ratelimit.go:125-135 | compaction over the slice's own buffer keeps exactly the hour's hits and counts the minute's |
| `RateLimit.Append` | internal/api/ratelimit.go:147 | appending in place or in a larger buffer adds the one timestamp |

## Left out

- User interface, HTTP handlers, routes, gRPC transport, TLS, macaroon bytes and caveat encoding: a credential is the key it was baked under, an RPC its effect and its answer.
- File-system detail: a credential write is one atomic replace, and saving and loading the state is a round trip.
- Audit rows, log lines and refusal budgets: they change none of the modelled state.
- Upgrade seeding and the folding of the old single pending slot: runs start from a folded, seeded state whose caps satisfy the cap pair and are below 2^62 msat.
- Randomness: a new root key id, a grant's number and the guard's nonce are fresh; two grants may still be given equal codes.
- Every clock but the limiter's goes only forward.
- RateLimit.Limiter.AllowKey: what a late call counts is exact, but once one has been admitted behind a later call nothing is claimed of the calls after it, because the source takes each bucket's last hit for its newest (internal/api/ratelimit.go:163-166).
- Codes are compared over ASCII letters and white space; Unicode case folding is not modelled.
- A node call whose effect lands after its error has returned: an effect is made by the time the answer comes, except for a payment request, which may stay in the air for any time.
- A payment's hash is at most one payment in flight at the node at a time, and an earlier attempt at it has finished.
- A reservation no connection asked for has no budget to correct; only reservations with a connection are modelled.
- A reservation of nothing: `CorrectsRightlyIff` takes the amount to be positive, which the wallet demands (internal/wallet/wallet.go:218-222).
- Negative fees: the node's fee is a natural number, which `wallet.Settle` also demands.
- The wallet's freeze, balance reads, the ladder's earlier checks, and the metadata of a payment: no effect on the row.
- The error a pass reports for an unmarked row another pass had closed (cmd/brollyzapper/payments.go:531): its effect on the row is modelled, not the report.
- CredentialGuard.Guard.RevokeSpend: says nothing of the spend file when a recorded key is deleted, because the source goes on when its removal fails.
- RotationGuard.Memory.RecordRotationExit: the calls interleaved with it run whole between its own lock steps, while the machine in `ExitMemory.dfy` interleaves every step.
- PaymentDesk.Reservation.PayInvoice: a process death is a call that does not return; the deaths between its statements, and passes that overlap it, are steps of the machine in `Payments.dfy`.
- InvoiceStream.Receiver.RunInvoiceStream: loops for any finite number of streams instead of for ever.
- The interval between two re-bake requests (`mayReBake`), `RetryNow` and the certificate checks of the client: short branches that move none of the state above.
- The middleware's slots, send lock and decision timeout: one decision is one call, and a registration is a new session number.
