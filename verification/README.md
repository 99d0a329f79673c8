# BridgeSafe, verified

BridgeSafe lets the owner of a treasury ask, on the Flare chain, for XRP payments that a TEE enclave
authorizes and signs, and settles each one against a Flare Data Connector (FDC) proof of the payment
on the XRP Ledger. This project models the parts that decide whether that is safe, and proves what
they are for:

- **the two contracts**: `BridgeSafeController` (treasuries, policies, budgets, requests) and
  `BridgeSafeFdcVerifier` (settlement), over every sequence of calls by anyone;
- **the enclave**: its four handlers over the maps of treasuries and authorizations;
- **the wire format**: the XRPL Payment codec, base58 and classic addresses, byte by byte;
- **the protocol**: contracts and enclave together, with a network between them that delays, drops,
  reorders and repeats instructions and results at will;
- **the result relay**: its scan loop, and the web app's conversion between XRP and drops.

## How it is built

Code that changes things in place is a class (`BridgeSafeController`, `BridgeSafeFdcVerifier`,
`Extension`, `Payment`, `Relay`) or a method with loops (base58, the field writers). Every method is
proved equal to a function on the state's value; a failing call changes nothing and returns the error
the source raises. The theorems are lemmas about those functions, over all inputs and all runs.

Each operation also has a second description that does not look at those functions. The `*Rules` files
list its requirements in the source's order, with every constant written out, and prove that it succeeds
exactly when all of them hold and otherwise raises the error of the first that does not
(`Guards.VerdictIsFirst` says what a table's verdict is). What a success
writes is described record by record (`ControllerEffects`, `EnclaveRules`), and where each recorded fact
comes from is a theorem over whole runs (`ControllerHistory`, `Payloads`).

| files | what they hold |
|---|---|
| `Digits`, `Bytes`, `Base58`, `ClassicAddress` | positional notation, big-endian words, base58, r-addresses |
| `XrplFormat`, `XrplFields`, `Payment`, `PaymentRoundTrip` | a general XRPL object printer and parser; the Payment writer; what its bytes mean |
| `AddressRules`, `PaymentRules` | what an address is and which texts are refused; the Payment's bytes, limits and errors written out |
| `Protocol`, `Book`, `Controller` | shared vocabulary; the controller's storage and calls; the contract |
| `BookInvariant`, `BookRuns`, `BudgetRuns`, `BookTerms` | what every call keeps; whole runs; caps and confirmations; effects of calls |
| `Guards`, `ControllerRules`, `ControllerEffects`, `ControllerHistory` | ordered requirements; when each entry point succeeds and what it raises; what it writes; pausing, origins of every record, releases over runs |
| `Settlement`, `Verifier`, `SettlementRules` | settlement and runs of both contracts; the verifier contract; when a proof settles a request |
| `EnclaveState`, `Enclave`, `EnclaveRuns`, `EnclaveRules` | handlers as functions; the extension; sequences of deliveries; when each handler succeeds, what it answers and leaves |
| `World`, `WorldInvariant`, `WorldRuns`, `Agreement`, `Payloads` | the protocol as a state machine; its invariant; agreement, settleability, expiry; every payment traced to one ciphertext, every settlement to a true payment |
| `Signings`, `Spending` | signatures against authorizations; executed payments against caps |
| `Progress`, `Completion` | what each happening leaves; payments carried to settlement |
| `Scenarios`, `LateProof`, `Example` | histories that break what the documentation promises; a deployment in which all of them happen |
| `PolicyAgreement`, `PolicyRuns` | policies on both sides |
| `RelayState`, `Relay`, `RelayTruth` | the relay's loop; the relay; what its verdicts are worth on chain |
| `XrpDecimal`, `Wrappers` | XRP and drops; option and result types |

**Hashes** are symbolic: a digest is the name of its hash function applied to what was hashed, so
hashes are injective and never zero. Which 32 bytes a digest is, is any function; where two memo
references must not share bytes (`WordsDistinct`), that is assumed of the references in use only.
**Signatures, decryption, checksums and account ids** are any functions. A result that carries the
enclave's signature is one the enclave emitted. FDC attests one response per transaction id. The
verifier is registered once and the enclave's address stays as it is.

## Where the code and its documentation part

Each of these is a history of the whole protocol, with results the enclave emits. The lemmas in
`Scenarios` and `LateProof` start from any state with an active treasury; `Example` gives one deployment
in full and carries each of them through from its start.

- `docs/threat-model.md:157-159` says `reservedDrops <= maxTotalDrops` holds for the life of a
  treasury. `confirmPolicy` does not look again: a narrower policy asked for while an authorization is
  under way can end with 80 drops reserved under a live cap of 50 (`LiveCapCanBreak`, `LiveCapBreaks`).
  `LiveCapExactly` and `CoveredExactly` say exactly when the cap holds. What always holds is
  `ReservedWithinHighestCap`.
- `docs/threat-model.md:139-147` says a policy acknowledgement is valid exactly once. It is accepted
  again exactly when the owner has the same policy pending again (`ConfirmationAcceptedAgainExactly`,
  `ConfirmationCanRepeat`). Confirmations never outnumber requested updates.
- `contracts/src/BridgeSafeController.sol:454-456` says contract and enclave can never disagree about the
  live policy, and `docs/threat-model.md:149-153` that the two cannot drift apart. With reordered
  instructions they do, until some policy instruction is handled again (`ReorderingDisagrees`);
  `AgreementExactly` and `InOrderAgreement` say when they agree.
- `extension/go/internal/extension/extension.go:428` says one authorization yields one signature. That
  holds for handlers run one at a time (`OneSignaturePerAuthorization`). Interleaved, one grant can yield
  two signatures (`OneGrantTwoSignatures`). `FinishFindsGrantExactly` says when a signing still finds its
  authorization, `GrantsAccountedFor` and `WithinGrantsExactly` what becomes of every grant, and
  `SigningsWithinGrants` when the promise holds. Terms agreement does not depend on it.
- `extension/go/internal/config/config.go:44-47` calls the budget safe to release after the grace. A payment
  executed in time whose proof comes later is released all the same and can then no longer settle, so
  executed payments can exceed every cap the treasury ever had, on a ledger that can execute all of them
  (`LateProofOverspends`, `Overspends`). Counting every signature, accepted by the controller or not,
  nothing is paid beyond its reservation exactly when no request is paid twice and none that is paid was
  cancelled or expired (`PaidAsReservedExactly`); then all spend is within the caps (`SpentWithinCap`,
  `SpentWithinCapOnLedger`). `SpendAccountedFor` balances the two in every state.
- `services/cmd/result-relay/main.go:187-199` rescans only for "not ready". A log behind the cursor is left
  undone exactly when the poll that passed it met a hard failure there and no handling of its action
  ever completes it (`LeftUndoneExactly`, `EveryPassedLogDoneExactly`).
- `services/cmd/result-relay/main.go:274-276` takes a rejected result for one already applied. Every failed
  gas estimate is reported in words that contain "would revert"
  (`services/internal/bridgesafe/client.go:107-112`), so a policy violation, an expired deadline or an
  unreachable node makes the relay call the action done for good (`EveryFailedEstimateMatches`,
  `LostEstimateIsSkipped`). A refusal means "already applied" exactly when the treasury was already bound,
  or the request is in a wrong state it reached by taking the step (`RefusalExactly`);
  `EveryPassedLogAppliedExactly` says when everything behind the cursor was really applied.

## Model

| member | source | states |
|---|---|---|
| Agreement.TermsAgreement | extension/go/internal/extension/extension.go:300-439 | after any history, under any delay, loss, reordering, repetition or interleaved signing, every blob a request has accepted is exactly a Payment, with zero flags and no other field, from that treasury's bound account, for exactly the request's amount, to an address whose hash is the authorized one, with the request's memo, under the predicted transaction id |
| Agreement.SubmittedIsAccepted | contracts/src/BridgeSafeController.sol:689-720 | an accepted signature result puts its blob on record for the request it names, so terms agreement covers it |
| Agreement.AcceptedAgrees | contracts/src/BridgeSafeController.sol:611-720 | in any state satisfying the protocol invariant, an accepted blob agrees with its request |
| Agreement.Settleability | contracts/src/BridgeSafeFdcVerifier.sol:100-193 | for a SIGNED or BROADCAST request whose accepted blob XRPL executed and FDC reports truthfully, finalizePayment succeeds, settles the request and records the predicted id; that the id is unused is proved, not assumed |
| Agreement.IdUnused | contracts/src/BridgeSafeFdcVerifier.sol:116-119 | the id of an executed accepted blob of an unsettled request cannot have settled another request |
| Agreement.ReportMatches | contracts/src/BridgeSafeFdcVerifier.sol:153-193 | the truthful report of an agreeing blob passes every check against its request |
| Agreement.ExpirySafety | contracts/src/BridgeSafeController.sol:770-793 | once a request has expired after a blob was accepted, the validated ledger has reached the blob's LastLedgerSequence, if ledgers take at most 8.8 seconds on average and no ledger read was ahead of the ledger |
| Payloads.SettlementsAreTrue | contracts/src/BridgeSafeFdcVerifier.sol:100-193 | in every reachable state of the protocol, each settled request was paid: under the id on record FDC attested a successful payment from the account of the request's treasury, to the recorded destination, of the recorded amount, with the request's memo, and destination and amount are those its ciphertext asks for |
| Payloads.EveryPaymentMeant | extension/go/internal/extension/extension.go:472-486 | in every reachable state, whatever speaks of a payment (a grant in hand, a signing under way, an emitted authorization or signature, recorded terms) speaks of a request whose own ciphertext names this chain, this controller, its treasury and the request itself, for a positive amount within both caps of a policy the enclave held, to an account other than the treasury's |
| Payloads.OnePayloadOneRequest | extension/go/internal/extension/extension.go:302-307 | hence one ciphertext is granted, signed or recorded for at most one request |
| Payloads.TraceMeant | extension/go/internal/extension/extension.go:265-439 | the invariant behind these holds at every moment of any history |
| Completion.PaymentsComplete | contracts/src/BridgeSafeController.sol:556-753 | from any history that ends with an active treasury, any payment its policy allows can be carried on until its blob is accepted, and to settlement once FDC attests that one blob (and no two memo references share bytes) |
| Completion.Authorizes | contracts/src/BridgeSafeController.sol:556-655 | from any such history the payment can be asked for, granted and reserved: the exact state it leaves, with one more grant and no more signatures |
| Completion.SignsPayment | contracts/src/BridgeSafeController.sol:658-720 | from any state with the request authorized in time and its authorization in hand, it can be signed and accepted: the exact state it leaves |
| Completion.Opens | contracts/src/BridgeSafeController.sol:395-451 | a fresh deployment can create a treasury, have its key made and bind its address |
| Example.Settles | contracts/src/BridgeSafeFdcVerifier.sol:100-137 | in one deployment given in full, a history from the start that ends with a settled request |
| Spending.SignaturePays | extension/go/internal/extension/extension.go:403-418 | in every reachable state, every payment the enclave has signed, accepted by the controller or not, pays exactly its request's recorded amount from the treasury's account |
| Spending.SpendAccountedFor | contracts/src/BridgeSafeController.sol:640-830 | in every reachable state, for any set of executed transactions: what was paid, plus what is reserved unpaid, equals what is reserved, plus what was paid beyond the reservations |
| Spending.SpentWithinReservedExactly | contracts/src/BridgeSafeController.sol:640-830 | spend is within what is reserved if and only if what was paid beyond the reservations is at most what is reserved unpaid |
| Spending.NoExcessExactly | contracts/src/BridgeSafeController.sol:756-830 | nothing was paid beyond its reservation if and only if every request was paid at most once and the reservation of each paid one stands |
| Spending.PaidAsReservedExactly | contracts/src/BridgeSafeController.sol:756-830 | over every history: nothing was paid beyond its reservation if and only if no request was paid twice and no paid one was ended by an accepted call |
| Spending.EndedExactly | contracts/src/BridgeSafeController.sol:756-830 | a request has ended if and only if some accepted cancellation, expiry or failure ended it |
| Spending.OneSequenceOnePayment | extension/go/internal/extension/extension.go:392-413 | a request whose signatures carry one sequence is paid at most once, on any ledger that uses each sequence of an account once |
| Spending.SpentWithinCap | extension/go/internal/config/config.go:44-47 | under the condition of PaidAsReservedExactly, all executed payments of a treasury are within what it has reserved and within the largest cap ever live |
| Spending.SpentWithinCapOnLedger | extension/go/internal/config/config.go:44-47 | the same when each request's signatures carry one sequence and none with an executed signature is cancelled or expired |
| Spending.LateProofIsVisible | contracts/src/BridgeSafeController.sol:770-793 | an executed accepted payment has landed in a validated ledger by the time its request has expired |
| Spending.TraceProjects | contracts/src/BridgeSafeController.sol:395-830 | for the controller, a history of the protocol is the run of its own events |
| Spending.HighestLiveCapIsHighest | contracts/src/BridgeSafeController.sol:525-532 | the largest cap of that run is the maximum of the caps live in the states of the history |
| Spending.ReservedWithinHighestLiveCap | contracts/src/BridgeSafeController.sol:645-649 | in every history of the protocol what is reserved is within the largest cap ever live |
| LateProof.LateProofOverspends | extension/go/internal/config/config.go:44-47 | from any history in which a payment can be asked for and a second one could follow it, with two readings under different sequences that leave each payment alive when signed: a history and a ledger that can execute both, paying at least the two amounts, which are more than the largest cap the treasury ever had |
| LateProof.BothExecutable | extension/go/internal/extension/extension.go:392-413 | two signatures under different sequences, each alive when signed, can both land |
| Example.Overspends | extension/go/internal/config/config.go:44-47 | such a history from the start, on a ledger of one index every four seconds: at least 160 drops paid, no cap above 100 |
| EnclaveRuns.WindowFitsGrace | extension/go/internal/extension/extension.go:509-522 | 44 times the ledger window is at most 5 times the seconds left plus the 3600 of grace, for every time up to the deadline |
| EnclaveRuns.WindowTight | extension/go/internal/config/config.go:38-47 | with 3000 seconds left the two sides are equal: no slower pace would do |
| EnclaveState.LedgerWindow | extension/go/internal/extension/extension.go:509-522 | the window is between 10 and 750 whatever the clock and the deadline, int64 conversion and wrap-around included |
| WorldRuns.TraceKeepsInv | extension/go/internal/extension/extension.go:172-439 | every record on either side and in flight (log, authorizations, half-done signings, emitted results, bound addresses, requests, settlements) speaks of the same payments, at every moment of any history |
| WorldRuns.AuthorizeVault | extension/go/internal/extension/extension.go:265-348 | an authorization the enclave grants holds exactly the terms the request's recorded payload hash stands for, and its result says so |
| WorldRuns.FinishVault | extension/go/internal/extension/extension.go:382-439 | finishing a signing emits a payment of the request's terms, bounded by the window at that moment, whatever happened since it began |
| WorldRuns.CreateKeyVault | extension/go/internal/extension/extension.go:172-221 | creating a key leaves other treasuries alone and reports the address of its account |
| WorldInvariant.CallKeepsTerms | contracts/src/BridgeSafeController.sol:611-720 | a call by anyone leaves each request with the terms its payload stands for, and a blob only from a signature made by the deadline |
| WorldInvariant.CallKeepsBound | contracts/src/BridgeSafeController.sol:422-451 | a bound treasury's address is the enclave's address for that treasury, after any call |
| WorldInvariant.SettleKeepsInv | contracts/src/BridgeSafeFdcVerifier.sol:100-137 | finalizePayment keeps the protocol invariant, and each consumed transaction was a successful payment that fulfils the settled request: source, destination, amount and memo |
| PolicyRuns.AgreementExactly | contracts/src/BridgeSafeController.sol:461-535 | with nothing pending the contract holds the policy its owner asked for last; the enclave handled that instruction or an earlier one last, and agrees exactly when what it handled last carried the same policy, always when it was that instruction |
| PolicyRuns.InOrderAgreement | extension/go/internal/extension/extension.go:228-247 | with policy instructions handled in order, the last one sent among them, and nothing pending, contract and enclave hold the same policy, the last one asked for |
| PolicyRuns.LivePolicyRequestedAndAdopted | contracts/src/BridgeSafeController.sol:450-535 | every policy live on chain was asked for by the owner, and once the treasury is bound the enclave has held it, now or before |
| Scenarios.ReorderingDisagrees | contracts/src/BridgeSafeController.sol:454-456 | from any history with an active treasury and any two policies on offer, two updates delivered out of order: both handled, nothing pending, different policies on the two sides |
| Example.PoliciesDisagree | contracts/src/BridgeSafeController.sol:454-456 | such a history from the start, in one deployment given in full |
| PolicyAgreement.CallKeepsPolicies | contracts/src/BridgeSafeController.sol:461-535 | in the log, the last policy sent to a treasury is its live one, or the pending one, and the owner sent it |
| BookInvariant.CallKeepsInv | contracts/src/BridgeSafeController.sol:380-830 | every entry point keeps numbering, request lists, memo references, policy commitments and budget conservation |
| BookInvariant.ReleaseNeverUnderflows | contracts/src/BridgeSafeController.sol:764-789 | giving back a reservation never underflows |
| BookInvariant.PutConserves | contracts/src/BridgeSafeController.sol:640-652 | moving a request between states keeps the reserved counter the sum of reserving requests when it moves by the difference of the shares |
| BookRuns.BudgetConservation | contracts/src/BridgeSafeController.sol:640-652 | in every reachable state each treasury's reservedDrops is the sum of amountDrops over its AUTHORIZED, SIGNED, BROADCAST and SETTLED requests, and every release of an open request succeeds |
| BookRuns.RequestStep | contracts/src/BridgeSafeController.sol:611-830 | one call changes a request record only by raising its state number, keeping its identity |
| BookRuns.RequestRises | contracts/src/BridgeSafeController.sol:611-830 | the same between any two moments of a run |
| BookRuns.ResultTakesEffectOnce | contracts/src/BridgeSafeController.sol:422-830 | once a bind, authorization, signature or failure result is accepted, every later result for the same step is rejected, replayed or not |
| BookRuns.TreasuryStep | contracts/src/BridgeSafeController.sol:461-830 | what an accepted call may do to a treasury's budget: only an authorization raises the reserved counter, and only up to the live cap; only a confirmation of the pending commitment changes the policy |
| ControllerRules.RulesDecide | contracts/src/BridgeSafeController.sol:380-986 | for every entry point, storage, time and caller: the call succeeds exactly when every requirement of the table holds, and otherwise reverts with the error of the first that does not |
| ControllerEffects.CallWrites | contracts/src/BridgeSafeController.sol:422-830 | an accepted call on existing records writes the request and the treasury it is about, field by field as described, and no other record, flag or counter |
| ControllerEffects.CreateTreasuryWrites | contracts/src/BridgeSafeController.sol:395-414 | a new treasury has the next id, its creator as owner, the policy asked for, no address, nothing reserved, nonce 1, unpaused |
| ControllerEffects.CreateRequestWrites | contracts/src/BridgeSafeController.sol:556-582 | a new request has the next id and nonce, its opener, the deadline from the live policy, the hash of its payload, its memo reference, and no terms |
| ControllerEffects.CallSendsAsDue | contracts/src/BridgeSafeController.sol:913-950 | an accepted call sends one instruction if it starts something, naming this contract, the treasury, the request as recorded and the commitment in question, with the sender as claim-back address; any other call sends none |
| ControllerHistory.PausedExactly | contracts/src/BridgeSafeController.sol:380-383 | in every state of every run the flag is what the contract owner last set, false before |
| ControllerHistory.PausingExactly | contracts/src/BridgeSafeController.sol:310-313 | in every reachable state a call reverts with ContractPaused exactly when it starts something and the owner last paused the contract |
| ControllerHistory.PausedUntilResumed | contracts/src/BridgeSafeController.sol:376-383 | after the owner's setPaused(true) no starting call is accepted until setPaused(false); after that the flag refuses nothing |
| ControllerHistory.TreasuryPausedExactly | contracts/src/BridgeSafeController.sol:538-543 | each treasury's flag is what its owner or the contract owner last set for it, whatever is set for others |
| ControllerHistory.TreasuryPausingExactly | contracts/src/BridgeSafeController.sol:556-665 | a set flag stops the treasury's new requests and signatures; otherwise TreasuryPaused is never raised |
| ControllerHistory.TreasuryOrigin | contracts/src/BridgeSafeController.sol:395-451 | every treasury was created by its owner, and has an address exactly when a bind with that address was accepted |
| ControllerHistory.RequestOrigin | contracts/src/BridgeSafeController.sol:556-830 | in every state of every run each request's record is what the accepted calls about it left: its identity from the call that opened it, its terms from an authorization in time and within both caps then live, its blob and predicted id from a signature in time, its final id from the verifier, its end from an ending call; and which fields are set is fixed by its state |
| ControllerHistory.AuthorizationExactly | contracts/src/BridgeSafeController.sol:611-655 | in every reachable state an authorization for a known request is accepted if and only if it is genuine, answers that request while CREATED and in time, names a destination, and its amount is positive, within the per-payment cap and within what the cumulative cap leaves |
| ControllerHistory.AmountsWithinPaymentCap | contracts/src/BridgeSafeController.sol:644 | over every run no request, whatever became of it, was granted more than the largest per-payment cap ever live for its treasury, and every reserving one was granted something |
| ControllerHistory.HighestPaymentCapIsHighest | contracts/src/BridgeSafeController.sol:525-532 | that cap is the maximum of the per-payment caps live in the states of the run |
| ControllerHistory.CancelExactly | contracts/src/BridgeSafeController.sol:756-768 | in every reachable state cancelling succeeds if and only if the sender owns the treasury and the request is CREATED or AUTHORIZED; then exactly what it held is given back and nothing else changes |
| ControllerHistory.FailureExactly | contracts/src/BridgeSafeController.sol:800-830 | in every reachable state a failure is recorded if and only if the registered enclave signed it with status 0 for this contract and the request is CREATED or AUTHORIZED; then exactly what it held is given back |
| ControllerHistory.ExpiryReleases | contracts/src/BridgeSafeController.sol:786-790 | an accepted expiry gives back exactly what the request held and changes nothing else |
| ControllerHistory.InstructionOrigin | contracts/src/BridgeSafeController.sol:913-950 | the k-th instruction of the log was sent by the k-th accepted starting call and says what that call was about |
| ControllerHistory.InstructionsCounted | contracts/src/BridgeSafeController.sol:913-930 | the log holds one instruction for each accepted starting call |
| ControllerHistory.AvailableExactly | contracts/src/BridgeSafeController.sol:887-891 | in every reachable state availableDrops plus the amounts of the reserving requests is the live cap; it reverts exactly when they exceed it |
| ControllerHistory.ExpectationExactly | contracts/src/BridgeSafeController.sol:861-884 | in every reachable state the verifier is told the hash of the address the treasury is bound to, the request's terms and state, and the 36 bytes of its memo |
| BudgetRuns.ReservedWithinHighestCap | contracts/src/BridgeSafeController.sol:645-649 | what is reserved never exceeds the largest cap that was ever live |
| BudgetRuns.HighestCapIsHighest | contracts/src/BridgeSafeController.sol:525-532 | that cap is the maximum of the live caps over the states of the run |
| BudgetRuns.LiveCapExactly | contracts/src/BridgeSafeController.sol:525-532 | the live cap covers the reservations in every state of a run if and only if no accepted confirmation has a cap below what is then reserved |
| BudgetRuns.CoveredExactly | contracts/src/BridgeSafeController.sol:470-476 | live and pending caps cover the reservations throughout a run if and only if no authorization accepted while an update is pending passes the pending cap |
| BudgetRuns.LiveCapWhileQuiet | contracts/src/BridgeSafeController.sol:887-891 | in a run that accepts no authorization while an update is pending, the live cap holds in every state and availableDrops never underflows |
| BudgetRuns.ConfirmationsWithinUpdates | contracts/src/BridgeSafeController.sol:505-535 | accepted confirmations, plus one if an update is pending, never exceed accepted updates |
| BudgetRuns.ConfirmationAcceptedAgainExactly | contracts/src/BridgeSafeController.sol:525-532 | a confirmation accepted before is accepted again if and only if the same policy is pending again |
| BudgetRuns.ExpiryExactly | contracts/src/BridgeSafeController.sol:775-793 | in every reachable state expiry succeeds exactly for an open request past its deadline, plus grace once signed (and not within an hour of the end of uint64 time): no reservation is stranded |
| Scenarios.LiveCapCanBreak | contracts/src/BridgeSafeController.sol:505-535 | from any history in which a payment can be asked for, with any narrower policy on offer whose cap the payment would pass: the protocol can end with more reserved than the live cap and availableDrops reverting |
| Example.LiveCapBreaks | contracts/src/BridgeSafeController.sol:505-535 | such a history from the start: 80 reserved under a live cap of 50 |
| Scenarios.ConfirmationCanRepeat | contracts/src/BridgeSafeController.sol:505-535 | from any history with an active treasury and a policy on offer: one confirmation the enclave emitted is accepted twice |
| Example.ConfirmationRepeats | contracts/src/BridgeSafeController.sol:505-535 | such a history from the start |
| BookTerms.AcceptedWasAllowed | contracts/src/BridgeSafeController.sol:395-830 | an accepted owner's call comes from the treasury's owner, an accepted result from the registered enclave for this contract and chain, nothing starts while paused, only the verifier settles |
| BookTerms.CallTerms | contracts/src/BridgeSafeController.sol:611-830 | which calls write a request's terms and signature, when, and from what; ending or settling a request writes neither |
| BookTerms.CallAddress | contracts/src/BridgeSafeController.sol:422-451 | only a bind result changes a treasury's address, once, and only with the treasury's own commitment |
| BookTerms.CallSends | contracts/src/BridgeSafeController.sol:913-950 | a call sends at most one instruction, whose header names the request as recorded |
| Settlement.SettlementBijection | contracts/src/BridgeSafeFdcVerifier.sol:117-129 | settledBy and the SETTLED requests are each other's inverses through xrplTxId, in every reachable state |
| Settlement.ProvedSpendBounded | contracts/src/BridgeSafeFdcVerifier.sol:177-186 | the sum of received amounts over all consumed proofs of a treasury equals its settled amounts, is at most what is reserved, and at most the largest cap ever live |
| Settlement.ReceivedIsSettled | contracts/src/BridgeSafeFdcVerifier.sol:100-137 | that first equality, over every run of both contracts |
| Settlement.RunProjects | contracts/src/BridgeSafeFdcVerifier.sol:129 | a run of both contracts is, for the controller, the run with one markSettled call for each consumed proof |
| Settlement.OneBodyOneRequest | contracts/src/BridgeSafeFdcVerifier.sol:188-192 | no response body passes the check for two requests |
| Settlement.MemoRefsDistinct | contracts/src/BridgeSafeController.sol:899-901 | memo references name their requests |
| Settlement.ListIsTheRequests | contracts/src/BridgeSafeController.sol:567-582 | a treasury's list is exactly its request ids, ascending, with nonces 1, 2, 3 and so on |
| Settlement.FinalizeEffect | contracts/src/BridgeSafeFdcVerifier.sol:100-137 | an accepted proof settles one SIGNED or BROADCAST request for exactly its amount under an id never used |
| SettlementRules.SettleRulesDecide | contracts/src/BridgeSafeFdcVerifier.sol:100-193 | for any proof, request and storage: finalizePayment succeeds exactly when every requirement holds, and otherwise reverts with the error of the first that does not |
| SettlementRules.FinalizeExactly | contracts/src/BridgeSafeFdcVerifier.sol:100-193 | in every reachable state of both contracts a proof settles a known request if and only if it is verified, of the right type and source, successful, of a transaction no settled request carries, and the request is SIGNED or BROADCAST and the payment left the bound account, reached the destination, with the amount, with the memo |
| Verifiers.BridgeSafeFdcVerifier.FinalizePayment | contracts/src/BridgeSafeFdcVerifier.sol:100-137 | a verified, successful proof of the right type and source, under an unused id, matching the request, records the id and settles the request in the controller; otherwise the first failing check and neither contract changes |
| Verifiers.BridgeSafeFdcVerifier.CheckAgainst | contracts/src/BridgeSafeFdcVerifier.sol:153-193 | the first mismatch between a response and the request's recorded expectation |
| Verifiers.BridgeSafeFdcVerifier.IsTxIdUsed | contracts/src/BridgeSafeFdcVerifier.sol:148-150 | an id is used exactly when it has a non-zero entry |
| Controllers.BridgeSafeController.CreateTreasury | contracts/src/BridgeSafeController.sol:395-414 | an unpaused caller with a valid policy gets the next treasury id, owned by the caller, unbound, with nothing reserved, and one key instruction is sent; otherwise the first failing check and no change |
| Controllers.BridgeSafeController.BindTreasuryAddress | contracts/src/BridgeSafeController.sol:422-451 | a genuine result for an unbound treasury with its own commitment and a non-empty address fixes the address and its hash; otherwise the first failing check and no change |
| Controllers.BridgeSafeController.RequestPolicyUpdate | contracts/src/BridgeSafeController.sol:461-485 | the owner of a bound treasury makes a valid policy whose cap covers what is reserved the pending one, replacing any other, and one instruction is sent; the live policy stays; otherwise the first failing check and no change |
| Controllers.BridgeSafeController.ConfirmPolicy | contracts/src/BridgeSafeController.sol:505-535 | a genuine acknowledgement of exactly the pending commitment makes its policy live and empties the slot; the reserved counter is not consulted; otherwise the first failing check and no change |
| Controllers.BridgeSafeController.SetTreasuryPaused | contracts/src/BridgeSafeController.sol:538-543 | the treasury owner or the contract owner sets the flag of one treasury and nothing else |
| Controllers.BridgeSafeController.SetPaused | contracts/src/BridgeSafeController.sol:380-383 | the contract owner sets the global flag and nothing else |
| Controllers.BridgeSafeController.CreatePaymentRequest | contracts/src/BridgeSafeController.sol:556-602 | the owner of a bound, unpaused treasury gets the next request id, the next nonce and a memo reference of both, appended to the list; nothing is reserved yet; the timestamp is cut to 64 bits; otherwise the first failing check and no change |
| Controllers.BridgeSafeController.SubmitAuthorization | contracts/src/BridgeSafeController.sol:611-655 | a genuine result for a CREATED, unexpired request with its memo reference and payload hash, within both caps, records amount and destination and reserves the amount; otherwise the first failing check and no change |
| Controllers.BridgeSafeController.RequestSignature | contracts/src/BridgeSafeController.sol:658-672 | the owner of an unpaused treasury has one signing instruction sent for an AUTHORIZED, unexpired request; no record changes; otherwise the first failing check |
| Controllers.BridgeSafeController.SubmitSignedPayment | contracts/src/BridgeSafeController.sol:689-720 | a genuine result for an AUTHORIZED, unexpired request with its memo reference records the id and the hash of the blob itself; otherwise the first failing check and no change |
| Controllers.BridgeSafeController.ReportBroadcast | contracts/src/BridgeSafeController.sol:726-735 | anyone moves a SIGNED request on with exactly the predicted id; otherwise the first failing check and no change |
| Controllers.BridgeSafeController.MarkSettled | contracts/src/BridgeSafeController.sol:741-753 | the verifier alone settles a SIGNED or BROADCAST request, writing the id over the predicted one; otherwise the first failing check and no change |
| Controllers.BridgeSafeController.CancelRequest | contracts/src/BridgeSafeController.sol:756-768 | the owner ends a CREATED or AUTHORIZED request and gets back exactly what it reserved; otherwise the first failing check and no change |
| Controllers.BridgeSafeController.ExpireRequest | contracts/src/BridgeSafeController.sol:775-793 | anyone ends an open request after its deadline, plus grace once signed, giving back exactly what it reserved; otherwise the first failing check and no change |
| Controllers.BridgeSafeController.SubmitFailure | contracts/src/BridgeSafeController.sol:800-830 | a refusal with status 0 signed by the enclave ends a CREATED or AUTHORIZED request, giving back exactly what it reserved; otherwise the first failing check and no change |
| Controllers.BridgeSafeController.SettlementExpectation | contracts/src/BridgeSafeController.sol:861-884 | the recorded expectation with the 36 memo bytes, or the unknown request |
| Controllers.BridgeSafeController.AvailableDrops | contracts/src/BridgeSafeController.sol:887-891 | cap minus reserved, or the revert of the subtraction |
| Controllers.BridgeSafeController.RequireTeeResult | contracts/src/BridgeSafeController.sol:954-965 | accepts exactly a successful result signed by the registered enclave |
| Enclaves.Extension.CreateTreasuryKey | extension/go/internal/extension/extension.go:172-221 | for a treasury without a key and a header committing to the policy sent, stores the key, account, address and policy and reports the address; a second key is refused; a refusal changes nothing |
| Enclaves.Extension.RegisterPolicy | extension/go/internal/extension/extension.go:228-257 | for a known treasury and a header committing to the policy sent, replaces the policy and its commitment, keeping the key; a refusal changes nothing |
| Enclaves.Extension.AuthorizePayment | extension/go/internal/extension/extension.go:265-348 | a payload that decrypts to this very request, under the commitment held, to a valid address other than its own, within the policy and 64 bits, is stored with the header's reference and deadline; the reply reveals amount and destination hash; the first refusal otherwise, and no change |
| Enclaves.Extension.LastLedgerFor | extension/go/internal/extension/extension.go:509-522 | the ledger index plus the clamped window, wrapping at 32 bits |
| Enclaves.Extension.SignPayment | extension/go/internal/extension/extension.go:360-439 | signs the stored terms, not the header's, deletes the authorization and returns blob and id; a refusal, a failed ledger read or a failed Sign leaves the authorization |
| EnclaveRuns.OneSignaturePerAuthorization | extension/go/internal/extension/extension.go:366-431 | over any sequence of whole handlers, signings of a request plus an authorization still in hand never exceed its authorizations |
| EnclaveRuns.SignedPaymentCarriesItsAuthorization | extension/go/internal/extension/extension.go:366-431 | every signature carries the terms of an earlier authorization of that request that nothing has used since, drawn on its treasury's account |
| EnclaveRuns.FailureChangesNothing | extension/go/internal/extension/extension.go:390-418 | a handler that fails, at a ledger read, in Sign or anywhere else, changes nothing |
| EnclaveRuns.KeyNeverChanges | extension/go/internal/extension/extension.go:186-212 | a treasury's key, account and address never change once created |
| EnclaveRuns.AuthorizationOrigin | extension/go/internal/extension/extension.go:322-333 | the authorization in hand is the last one granted for the request, unused since |
| EnclaveRules.RulesDecide | extension/go/internal/extension/extension.go:172-502 | for every handler, state, instruction and answers from outside: it succeeds exactly when every check of the table holds, and otherwise answers the error of the first that does not |
| EnclaveRules.Granted | extension/go/internal/extension/extension.go:265-348 | a grant is for a payload that names exactly this request, of a positive amount within both caps of the policy held, to an account other than the treasury's; it stores those terms under this request alone and reveals its amount and the hash of its destination |
| EnclaveRules.KeyCreated | extension/go/internal/extension/extension.go:172-221 | a created key is stored with its account, the address that decodes to it and the policy sent; everything else stays |
| EnclaveRules.PolicyReplaced | extension/go/internal/extension/extension.go:228-257 | a registered policy replaces the one held and its commitment; key, account, address and everything else stay |
| EnclaveRules.JobHolds | extension/go/internal/extension/extension.go:366-388 | a signing that begins holds this request's grant and its treasury's key |
| EnclaveRules.SignedExactly | extension/go/internal/extension/extension.go:403-427 | what is signed is the grant's payment from the key's account at the sequence read, for a fee of 12 drops, bounded from the ledger read, with the memo "BSF1" and the reference; the signature is the treasury key's over the signing payload and the id is the hash of the blob |
| EnclaveRules.SigningConsumes | extension/go/internal/extension/extension.go:428-439 | a signature consumes the grant of its own request and no other |
| EnclaveRules.WindowExactly | extension/go/internal/extension/extension.go:509-522 | the window is the largest number of ledgers, at most 750, that fits the time left at four seconds each, and never fewer than 10; the time left is what 64 signed bits hold |
| EnclaveRules.LastLedgerExactly | extension/go/internal/extension/extension.go:521 | the bound is that many ledgers past the one read, in 32 bits |
| Scenarios.OneGrantTwoSignatures | extension/go/internal/extension/extension.go:366-431 | from any history in which a payment can be asked for, one more grant and two more signatures: both handlers begin before either deletes the authorization |
| Example.TwoSignatures | extension/go/internal/extension/extension.go:366-431 | such a history from the start, with one grant and two signatures in all |
| Signings.FinishFindsGrantExactly | extension/go/internal/extension/extension.go:366-431 | in any history, a signing that finishes finds its authorization in hand if and only if every signing of that request finished since it began was followed by a new authorization |
| Signings.GrantsAccountedFor | extension/go/internal/extension/extension.go:322-431 | in any history, signatures plus the unused authorization plus grants overwritten unused equal grants plus signings that found none |
| Signings.WithinGrantsExactly | extension/go/internal/extension/extension.go:322-431 | signatures and the unused authorization stay within the grants if and only if signings that found none are at most the grants overwritten |
| Signings.SigningsWithinGrants | extension/go/internal/extension/extension.go:366-431 | one signature per authorization, interleaved or not, when every signing that finishes during another is followed by a new authorization before that one finishes |
| Signings.InHandExactly | extension/go/internal/extension/extension.go:322-431 | an authorization in hand is still in hand later if and only if every signing in between was followed by a new authorization |
| Payments.Payment.Serialize | extension/go/internal/xrpl/payment.go:76-128 | writes exactly the canonical XRPL object with the payment's fields, or the first validation error |
| Payments.Payment.Sign | extension/go/internal/xrpl/payment.go:162-194 | the blob, id and signature of the validated payment, or the first error; fills in an absent public key even when it then fails |
| PaymentRoundTrip.PaymentCodecRoundTrip | extension/go/internal/xrpl/payment.go:76-128 | a general parser that reads fields by name gets back the same payment and signature from the bytes: tag only if present, memo only if non-empty, native amounts only |
| PaymentRoundTrip.SerializedParses | extension/go/internal/xrpl/payment.go:76-128 | the bytes parse completely, to fields in strictly ascending order |
| PaymentRoundTrip.SerializedIsExact | extension/go/internal/xrpl/payment.go:76-128 | the bytes hold the fields of the payment read from them and no others, flags zero among them |
| PaymentRoundTrip.ExactHasZeroFlags | extension/go/internal/xrpl/payment.go:76-92 | such bytes have the Flags field, with value zero, and no other Flags field |
| PaymentRoundTrip.BlobDeterminesPayment | extension/go/internal/xrpl/payment.go:76-128 | equal blobs carry equal payments and signatures |
| PaymentRoundTrip.SignedBodyIsBlobWithoutSignature | extension/go/internal/xrpl/payment.go:101-142 | deleting the TxnSignature field from the final blob leaves exactly the body that was signed |
| PaymentRoundTrip.TransactionIdCommits | extension/go/internal/xrpl/payment.go:172-187 | equal transaction ids mean equal payments and signatures |
| PaymentRules.ValidateDecided | extension/go/internal/xrpl/payment.go:43-68 | the limits of a payment, with the error of the first one missed |
| PaymentRules.SerializeDecided | extension/go/internal/xrpl/payment.go:76-128 | a payment is written exactly when it meets those limits and its signature has at most 192 bytes; otherwise the first error |
| PaymentRules.SerializedLayout | extension/go/internal/xrpl/payment.go:84-132 | the bytes of a written payment, every field id, length and constant written out |
| PaymentRules.SignDecided | extension/go/internal/xrpl/payment.go:134-194 | signing succeeds exactly with a key, a public key that is absent or its own, and a valid payment; the signature is over "STX", a zero byte and the unsigned bytes, the id is the hash of "TXN", a zero byte and the signed ones |
| XrplFormat.ParsePrintObject | extension/go/internal/xrpl/payment.go:70-75 | any well-formed XRPL object, nested objects and arrays included, parses back from its bytes |
| XrplFields.WriteVL | extension/go/internal/xrpl/fields.go:84-91 | one length byte and the payload up to 192 bytes, an error beyond |
| XrplFields.WriteUint16 | extension/go/internal/xrpl/fields.go:93-98 | field id and big-endian value |
| XrplFields.WriteUint32 | extension/go/internal/xrpl/fields.go:100-105 | field id and big-endian value |
| XrplFields.WriteXRPAmount | extension/go/internal/xrpl/fields.go:114-125 | field id and the drops with bit 62 set, or an error above the supply |
| XrplFields.WriteAccountID | extension/go/internal/xrpl/fields.go:127-133 | field id, length and the 20 bytes, or an error for another length |
| XrplFields.WriteBlob | extension/go/internal/xrpl/fields.go:135-138 | field id, length and bytes, or the length error |
| Bytes.PutBigEndian | extension/go/internal/xrpl/fields.go:93-105 | fills a buffer with the big-endian word |
| Base58.Base58Encode | extension/go/internal/xrpl/address.go:93-117 | base conversion by repeated division, leading zeros as leading first letters, reversed in place |
| Base58.Base58Decode | extension/go/internal/xrpl/address.go:119-144 | the inverse conversion, or the error for the empty string or a foreign letter |
| Base58.ReverseInPlace | extension/go/internal/xrpl/address.go:112-115 | reverses an array in place |
| Base58.DecodeEncode | extension/go/internal/xrpl/address.go:93-144 | decoding an encoding gives the bytes back, leading zeros included, and fails exactly for no bytes |
| Base58.EncodeDecode | extension/go/internal/xrpl/address.go:93-144 | encoding a decoding gives the string back |
| ClassicAddress.EncodeClassicAddress | extension/go/internal/xrpl/address.go:50-58 | the address of a 20-byte account id, or the length error |
| ClassicAddress.DecodeClassicAddress | extension/go/internal/xrpl/address.go:63-75 | the account id of an address with the right length, version and checksum, or the first error |
| ClassicAddress.AddressCanonicity | extension/go/internal/xrpl/address.go:50-75 | an address decodes to an account id if and only if the id encodes to the address, so each account has one accepted address |
| AddressRules.AlphabetExactly | extension/go/internal/xrpl/address.go:15 | each base58 digit is written as its letter of the ledger's alphabet, and exactly those letters are read |
| AddressRules.EncodeMeans | extension/go/internal/xrpl/address.go:93-117 | the text denotes the same number in base 58, with one leading "r" for each leading zero byte |
| AddressRules.AddressDecided | extension/go/internal/xrpl/address.go:63-75 | a text is an address exactly when it is not empty, in the alphabet, 25 bytes long with version 0, and ends with its checksum; otherwise the first error |
| AddressRules.AccountIs | extension/go/internal/xrpl/address.go:63-75 | the account id of an address is the twenty bytes between version and checksum |
| AddressRules.StartsWithR | extension/go/internal/xrpl/address.go:17-19 | every classic address starts with "r" |
| RelayState.CursorNeverSkips | services/cmd/result-relay/main.go:171-212 | the cursor moves forward only, and every log behind it has been handled with a latest verdict other than "not ready" |
| RelayState.PendingExactly | services/cmd/result-relay/main.go:181-199 | a scan holds the cursor exactly when some log in its range is not ready |
| RelayState.NoActionSubmittedTwice | services/cmd/result-relay/main.go:231-287 | no action id is successfully submitted twice in one process |
| RelayState.DoneExactly | services/cmd/result-relay/main.go:231-287 | after any polls an action is in the done map if and only if some handling of a log that names it was answered "accepted", or failed in words the relay takes for "already applied", or was answered "not ready" past the patience |
| RelayState.EveryFailedEstimateMatches | services/internal/bridgesafe/client.go:104-112 | every failed gas estimate, whatever made it fail, is reported in words the relay takes for "already applied" |
| RelayState.LostEstimateIsSkipped | services/cmd/result-relay/main.go:273-283 | a run in which one unreachable node during the estimate leaves an action done, its result never sent |
| RelayState.SubmittedExactly | services/cmd/result-relay/main.go:265-287 | an action is on record as submitted if and only if some handling of it was answered "accepted" |
| RelayState.LeftUndoneExactly | services/cmd/result-relay/main.go:181-199 | a handled log behind the cursor is left undone if and only if the poll that passed it met a hard failure there and no handling of its action ever completes it |
| RelayState.EveryPassedLogDoneExactly | services/cmd/result-relay/main.go:181-199 | with every id logged once, all handled logs behind the cursor are in the done map if and only if no poll passed a log on a hard failure there |
| RelayTruth.EveryPassedLogAppliedExactly | services/cmd/result-relay/main.go:231-305 | with every id logged once and the node answering truly, every handled log behind the cursor had its step taken on chain when the relay called it done if and only if none was passed on a hard failure and none was completed without effect |
| RelayTruth.BehindExactly | services/cmd/result-relay/main.go:231-305 | the same for one log |
| RelayTruth.AppliedExactly | services/cmd/result-relay/main.go:265-287 | a completion leaves the step taken if and only if it was an accepted submission, or the step had been taken; for a refusal, if and only if its error and the request's record say so |
| RelayTruth.RefusalExactly | services/cmd/result-relay/main.go:290-305 | a refusal of a genuine bind, authorization, signature or failure result means the step was taken if and only if it is TreasuryAlreadyBound, or WrongState with the step on record; no other error means it |
| RelayTruth.TakenExactly | contracts/src/BridgeSafeController.sol:422-830 | in every run of the controller a result for a step was accepted if and only if storage shows the step taken |
| RelayState.PassedBecause | services/cmd/result-relay/main.go:187-199 | a poll passes a log only because its action was done, was completed there, or failed hard there |
| RelayState.FinishedStaysDone | services/cmd/result-relay/main.go:231-287 | a log whose latest verdict is "finished" names an action in the done map |
| RelayState.WaitingIsPatient | services/cmd/result-relay/main.go:241-252 | a log is left waiting only within the patience of its first handling |
| RelayState.StuckWorkIsGivenUp | services/cmd/result-relay/main.go:241-252 | once everything ahead is overdue, the next poll that reads the chain moves past it |
| RelayState.WatchedHandled | services/cmd/result-relay/main.go:156-212 | started without a block, every handled log from 200 blocks behind the first head on and behind the cursor has been handled and is not waiting; started from a block, the same from that block on; and no other log has been handled |
| RelayState.CursorExactly | services/cmd/result-relay/main.go:174-199 | one poll moves the cursor past the head it read exactly when the logs were fetched and none in the range is left waiting |
| RelayState.VerdictExactly | services/cmd/result-relay/main.go:214-288 | how one handling ends: finished, waiting or failed, by what was answered |
| RelayState.MemoryExactly | services/cmd/result-relay/main.go:231-287 | what it writes: the first time an action was seen, the action as done, and nothing for an action already done |
| RelayState.MarkersExactly | services/cmd/result-relay/main.go:290-305 | a message is taken for "not new" exactly when one of the five markers stands in it |
| RelayState.MinedRevertIsNotTaken | services/internal/bridgesafe/client.go:134-136 | a submission that was mined and reverted is not taken for applied |
| RelayState.PassingFailureIsSkipped | services/cmd/result-relay/main.go:187-199 | a run in which one proxy failure leaves an action behind the cursor, neither done nor submitted |
| Relays.Relay.HandleLog | services/cmd/result-relay/main.go:214-288 | new maps and verdict for one log |
| Relays.Relay.ScanRange | services/cmd/result-relay/main.go:181-196 | handles exactly the logs of the range, in order |
| Relays.Relay.Run | services/cmd/result-relay/main.go:142-212 | the loop: its memory and cursor after any polls, with every watched log behind the cursor handled, where it starts said without the start computation, and nothing submitted twice |
| XrpDecimal.FormatRoundTrip | apps/web/lib/bridgesafe.ts:218-229 | toDrops of formatXrp is the identity on every number of drops |
| XrpDecimal.ToDropsTruncates | apps/web/lib/bridgesafe.ts:225-229 | toDrops of a plain decimal with a point, spaces around it or not, is its value truncated to six places |
| XrpDecimal.ReadsWhole | apps/web/lib/bridgesafe.ts:225-229 | toDrops of a plain decimal without a point, spaces around it or not, is exactly its value |
| XrpDecimal.FormatCanonical | apps/web/lib/bridgesafe.ts:218-223 | formatXrp gives digits without a leading zero beyond a single one, at most six places, no point without a fraction and no trailing zero after it, denoting exactly the drops |
| XrpDecimal.OnlyCanonical | apps/web/lib/bridgesafe.ts:218-223 | it is the only such decimal with that value |
| XrpDecimal.FormatIsShortest | apps/web/lib/bridgesafe.ts:218-223 | no plain decimal with that value, of however many places, is shorter |
| XrpDecimal.ThirdPartIgnored | apps/web/lib/bridgesafe.ts:225-229 | toDrops ignores what follows a second point |

## Left out

- Refusals end to end: the enclave's refusals carry no data, so no entry point decodes them; `submitFailure` is modelled as a controller step only.
- ABI and hex encoding, JSON, HTTP, RPC and event logs: instructions and results are decoded values. The contract decodes result data by position, with no tag for the command; that data emitted for one entry point does not decode at another is an assumption here (confirmation and authorization data are both seven words), and the one error for it is MalformedResult.
- The TEE result's action id and submission tag: they only enter the signed digest, and a signature is a fact about the body here.
- Changing the extension id, the enclave's address, the verifier or the contract owner: they are fixed at deployment.
- Fees forwarded with an instruction, the choice of TEE machine, and failures inside the registry other than an unset extension id.
- Checked counters and the extension-id check run before the first write in the controller's methods, since a Solidity revert undoes earlier writes; the error is the same. `finalizePayment` keeps the source's order of writes and undoes its own when the controller reverts.
- An enclave restart, which loses both maps.
- Interleaving inside `handleAuthorizePayment`: it is one step. Signing is two.
- Clock skew: block timestamps and the enclave's clock are one clock, which only moves forward.
- Blobs signed for a request but never accepted by the controller: terms agreement and expiry safety speak of the accepted one; executed spend counts all.
- XRPL itself: a ledger is a pace and the places where signed payments landed, within their bounds and each sequence of an account once and in order. Balances, reserves, fees and gaps between sequences are not part of it.
- Cancelling or expiring an AUTHORIZED request while a signature is still undelivered: the controller cannot know of it, and nothing is claimed.
- Reorganizations of the Flare chain and logs missing from a fetch, for the relay; the wording of a node's revert reasons is any text, and that the node answers truly is assumed only where a lemma says so.
- Strings other than digits with an optional point, and white space other than blanks, tabs and line ends, in `toDrops`: signs, hexadecimal and the errors of `BigInt`.
- The deployment tooling, the broadcaster, the FDC worker, the user interface and `InstructionSender.sol`.
