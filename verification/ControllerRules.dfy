/** When each entry point of the controller succeeds, and which error it raises otherwise: the
    requirements of contracts/src/BridgeSafeController.sol in the order they are checked, as data,
    with every constant written out. */
module ControllerRules {
  import opened Wrappers
  import opened Guards
  import opened Bytes
  import opened Protocol
  import opened Books

  type Rules = seq<Guard<Error>>

  /** A key absent from a mapping reads as the zero record. */
  function TreasuryAt(b: Book, tid: nat): Treasury {
    if tid in b.treasuries then b.treasuries[tid] else Treasury(0, "", Zero, Policy(0, 0, 0), Zero, Zero, 0, 0, false, false)
  }

  function RequestAt(b: Book, rid: nat): Request {
    if rid in b.requests then b.requests[rid] else Request(0, 0, 0, 0, 0, Zero, Zero, 0, Zero, Zero, Zero, Zero, NONE)
  }

  function HomeOf(b: Book, rid: nat): Treasury {
    TreasuryAt(b, RequestAt(b, rid).treasuryId)
  }

  /** The sender owns the treasury of a request. */
  predicate OwnsRequest(b: Book, sender: Address, rid: nat) {
    RequestAt(b, rid).treasuryId in b.treasuries && sender == HomeOf(b, rid).owner
  }

  predicate AllowedPolicy(p: Policy) {
    0 < p.maxPerPaymentDrops <= p.maxTotalDrops && 1 <= p.requestTtlSeconds <= 604800
  }

  /** Sums in 64 and in 256 bits do not wrap; they revert. */
  predicate Fits64(n: nat) {
    n < 0x1_0000_0000_0000_0000
  }

  predicate Fits256(n: nat) {
    n < 0x1_0000_0000_0000_0000_0000_0000_0000_0000_0000_0000_0000_0000_0000_0000_0000_0000
  }

  predicate Open(s: RequestState) {
    s == CREATED || s == AUTHORIZED
  }

  predicate Signed(s: RequestState) {
    s == SIGNED || s == BROADCAST
  }

  /** Signed by the registered enclave, with the status the entry point takes. */
  function TeeRules(b: Book, res: TeeResult, status: nat): Rules {
    [Guard(b.config.teeAddress != 0, TeeAddressUnset),
     Guard(res.status == status, TeeReportedFailure),
     Guard(res.signer == b.config.teeAddress, BadTeeSignature)]
  }

  predicate NamesContract(b: Book, body: ResultBody) {
    body.chainId == b.config.chainId && body.controller == b.config.self
  }

  // ---- The tables ----

  function CreateTreasuryRules(b: Book, p: Policy): Rules {
    [Guard(!b.paused, ContractPaused),
     Guard(AllowedPolicy(p), InvalidPolicy),
     Guard(Fits256(b.treasuryCount + 1), Panic),
     Guard(b.config.extensionId != 0, ExtensionIdUnset)]
  }

  function BindRules(b: Book, body: ResultBody): Rules {
    if !body.Bind? then [Guard(false, MalformedResult)]
    else
      var t := TreasuryAt(b, body.treasuryId);
      [Guard(NamesContract(b, body), ResultBindingMismatch),
       Guard(body.treasuryId in b.treasuries, UnknownTreasury),
       Guard(!t.bound, TreasuryAlreadyBound),
       Guard(body.policyCommitment == t.policyCommitment, ResultBindingMismatch),
       Guard(|body.xrplAddress| > 0, ResultBindingMismatch)]
  }

  function PolicyUpdateRules(b: Book, sender: Address, tid: nat, p: Policy): Rules {
    var t := TreasuryAt(b, tid);
    [Guard(!b.paused, ContractPaused),
     Guard(tid in b.treasuries, UnknownTreasury),
     Guard(sender == t.owner, NotTreasuryOwner),
     Guard(t.bound, TreasuryNotBound),
     Guard(AllowedPolicy(p), InvalidPolicy),
     Guard(t.reservedDrops <= p.maxTotalDrops, InvalidPolicy),
     Guard(b.config.extensionId != 0, ExtensionIdUnset)]
  }

  function ConfirmRules(b: Book, body: ResultBody): Rules {
    if !body.Confirm? then [Guard(false, MalformedResult)]
    else
      var t := TreasuryAt(b, body.treasuryId);
      [Guard(NamesContract(b, body), ResultBindingMismatch),
       Guard(body.commitment == Keccak(PolicyEncoding(body.policy)), ResultBindingMismatch),
       Guard(body.treasuryId in b.treasuries, UnknownTreasury),
       Guard(t.pendingPolicyCommitment != Zero, NoPendingPolicy),
       Guard(body.commitment == t.pendingPolicyCommitment, NoPendingPolicy)]
  }

  function TreasuryPauseRules(b: Book, sender: Address, tid: nat): Rules {
    [Guard(tid in b.treasuries, UnknownTreasury),
     Guard(sender == TreasuryAt(b, tid).owner || sender == b.config.owner, NotTreasuryOwner)]
  }

  function PauseRules(b: Book, sender: Address): Rules {
    [Guard(sender == b.config.owner, NotOwner)]
  }

  function PaymentRequestRules(b: Book, now: nat, sender: Address, tid: nat, payload: seq<byte>): Rules {
    var t := TreasuryAt(b, tid);
    [Guard(!b.paused, ContractPaused),
     Guard(|payload| > 0, EmptyPayload),
     Guard(tid in b.treasuries, UnknownTreasury),
     Guard(sender == t.owner, NotTreasuryOwner),
     Guard(t.bound, TreasuryNotBound),
     Guard(!t.paused, TreasuryPaused),
     Guard(Fits256(b.requestCount + 1), Panic),
     Guard(Fits64(t.nextNonce + 1), Panic),
     Guard(Fits64(now % 0x1_0000_0000_0000_0000 + t.policy.requestTtlSeconds), Panic),
     Guard(b.config.extensionId != 0, ExtensionIdUnset)]
  }

  function AuthorizationRules(b: Book, now: nat, body: ResultBody): Rules {
    if !body.Authorization? then [Guard(false, MalformedResult)]
    else AnswerRules(b, now, body) + CapRules(HomeOf(b, body.requestId), body.amountDrops)
  }

  /** The result answers this request, about this ciphertext, in time. */
  function AnswerRules(b: Book, now: nat, body: ResultBody): Rules
    requires body.Authorization?
  {
    var r := RequestAt(b, body.requestId);
    [Guard(NamesContract(b, body), ResultBindingMismatch),
     Guard(body.requestId in b.requests, UnknownRequest),
     Guard(r.state == CREATED, WrongState),
     Guard(now <= r.expiresAt, RequestExpired),
     Guard(body.memoRef == r.memoRef, ResultBindingMismatch),
     Guard(body.payloadHash == r.payloadHash, ResultBindingMismatch),
     Guard(body.destinationHash != Zero, PolicyViolation)]
  }

  /** The amount is within both caps of the live policy. */
  function CapRules(t: Treasury, amount: nat): Rules {
    [Guard(amount > 0, PolicyViolation),
     Guard(amount <= t.policy.maxPerPaymentDrops, PolicyViolation),
     Guard(Fits256(t.reservedDrops + amount), Panic),
     Guard(t.reservedDrops + amount <= t.policy.maxTotalDrops, PolicyViolation)]
  }

  function SignatureRequestRules(b: Book, now: nat, sender: Address, rid: nat): Rules {
    [Guard(!b.paused, ContractPaused),
     Guard(rid in b.requests, UnknownRequest),
     Guard(OwnsRequest(b, sender, rid), NotTreasuryOwner),
     Guard(!HomeOf(b, rid).paused, TreasuryPaused),
     Guard(RequestAt(b, rid).state == AUTHORIZED, WrongState),
     Guard(now <= RequestAt(b, rid).expiresAt, RequestExpired),
     Guard(b.config.extensionId != 0, ExtensionIdUnset)]
  }

  function SignedPaymentRules(b: Book, now: nat, body: ResultBody): Rules {
    if !body.SignedPayment? then [Guard(false, MalformedResult)]
    else
      var r := RequestAt(b, body.requestId);
      [Guard(NamesContract(b, body), ResultBindingMismatch),
       Guard(body.requestId in b.requests, UnknownRequest),
       Guard(r.state == AUTHORIZED, WrongState),
       Guard(now <= r.expiresAt, RequestExpired),
       Guard(body.memoRef == r.memoRef, ResultBindingMismatch),
       Guard(body.expectedTxId != Zero, ResultBindingMismatch),
       Guard(|body.signedTxBlob| > 0, ResultBindingMismatch)]
  }

  function BroadcastRules(b: Book, rid: nat, txId: Bytes32): Rules {
    [Guard(rid in b.requests, UnknownRequest),
     Guard(RequestAt(b, rid).state == SIGNED, WrongState),
     Guard(txId == RequestAt(b, rid).expectedTxId, TxIdMismatch)]
  }

  function SettleRules(b: Book, sender: Address, rid: nat): Rules {
    [Guard(sender == b.config.fdcVerifier, NotFdcVerifier),
     Guard(rid in b.requests, UnknownRequest),
     Guard(Signed(RequestAt(b, rid).state), WrongState)]
  }

  /** A reservation can be taken back: subtraction is checked. */
  predicate Releasable(b: Book, rid: nat) {
    var r := RequestAt(b, rid);
    r.state == CREATED || (r.treasuryId in b.treasuries && r.amountDrops <= HomeOf(b, rid).reservedDrops)
  }

  function CancelRules(b: Book, sender: Address, rid: nat): Rules {
    [Guard(rid in b.requests, UnknownRequest),
     Guard(OwnsRequest(b, sender, rid), NotTreasuryOwner),
     Guard(Open(RequestAt(b, rid).state), WrongState),
     Guard(Releasable(b, rid), Panic)]
  }

  function ExpireRules(b: Book, now: nat, rid: nat): Rules {
    var r := RequestAt(b, rid);
    [Guard(rid in b.requests, UnknownRequest),
     Guard(Open(r.state) || Signed(r.state), WrongState),
     Guard(Signed(r.state) ==> Fits64(r.expiresAt + 3600), Panic),
     Guard(now > r.expiresAt + (if Signed(r.state) then 3600 else 0), NotYetExpired),
     Guard(Releasable(b, rid), Panic)]
  }

  function FailureRules(b: Book, body: ResultBody): Rules {
    if !body.Failure? then [Guard(false, MalformedResult)]
    else
      [Guard(NamesContract(b, body), ResultBindingMismatch),
       Guard(body.requestId in b.requests, UnknownRequest),
       Guard(Open(RequestAt(b, body.requestId).state), WrongState),
       Guard(Releasable(b, body.requestId), Panic)]
  }

  /** What a call needs, in order. */
  function RulesOf(b: Book, now: nat, c: Call): Rules {
    match c
    case CallCreateTreasury(_, p) => CreateTreasuryRules(b, p)
    case CallBind(res) => TeeRules(b, res, 1) + BindRules(b, res.body)
    case CallRequestPolicyUpdate(sender, tid, p) => PolicyUpdateRules(b, sender, tid, p)
    case CallConfirmPolicy(res) => TeeRules(b, res, 1) + ConfirmRules(b, res.body)
    case CallSetTreasuryPaused(sender, tid, _) => TreasuryPauseRules(b, sender, tid)
    case CallSetPaused(sender, _) => PauseRules(b, sender)
    case CallCreatePaymentRequest(sender, tid, payload) => PaymentRequestRules(b, now, sender, tid, payload)
    case CallSubmitAuthorization(res) => TeeRules(b, res, 1) + AuthorizationRules(b, now, res.body)
    case CallRequestSignature(sender, rid) => SignatureRequestRules(b, now, sender, rid)
    case CallSubmitSignedPayment(res) => TeeRules(b, res, 1) + SignedPaymentRules(b, now, res.body)
    case CallReportBroadcast(rid, txId) => BroadcastRules(b, rid, txId)
    case CallMarkSettled(sender, rid, _) => SettleRules(b, sender, rid)
    case CallCancelRequest(sender, rid) => CancelRules(b, sender, rid)
    case CallExpireRequest(rid) => ExpireRules(b, now, rid)
    case CallSubmitFailure(res) => TeeRules(b, res, 0) + FailureRules(b, res.body)
  }

  // ---- The tables decide ----

  /** The call goes through if nothing fails, and raises the first failure otherwise. */
  predicate DecidedBy(outcome: Outcome, failure: Option<Error>) {
    match outcome
    case Ok(_) => failure == None
    case Err(e) => failure == Some(e)
  }

  lemma TeeDecided(b: Book, res: TeeResult)
    ensures Verdict(TeeRules(b, res, 1)) == CheckTee(b.config, res)
  {
    Unfold(TeeRules(b, res, 1));
  }

  lemma CreateTreasuryDecided(b: Book, sender: Address, p: Policy)
    ensures DecidedBy(CreateTreasury(b, sender, p), Verdict(CreateTreasuryRules(b, p)))
  {
    Unfold(CreateTreasuryRules(b, p));
  }

  lemma BindDecided(b: Book, res: TeeResult)
    ensures DecidedBy(BindTreasuryAddress(b, res), Verdict(TeeRules(b, res, 1) + BindRules(b, res.body)))
  {
    hide CheckTee, TeeRules;
    TeeDecided(b, res);
    Concat(TeeRules(b, res, 1), BindRules(b, res.body), 0);
    Unfold(BindRules(b, res.body));
  }

  lemma PolicyUpdateDecided(b: Book, sender: Address, tid: nat, p: Policy)
    ensures DecidedBy(RequestPolicyUpdate(b, sender, tid, p), Verdict(PolicyUpdateRules(b, sender, tid, p)))
  {
    Unfold(PolicyUpdateRules(b, sender, tid, p));
  }

  lemma ConfirmDecided(b: Book, res: TeeResult)
    ensures DecidedBy(ConfirmPolicy(b, res), Verdict(TeeRules(b, res, 1) + ConfirmRules(b, res.body)))
  {
    hide CheckTee, TeeRules;
    TeeDecided(b, res);
    Concat(TeeRules(b, res, 1), ConfirmRules(b, res.body), 0);
    Unfold(ConfirmRules(b, res.body));
  }

  lemma PaymentRequestDecided(b: Book, now: nat, sender: Address, tid: nat, payload: seq<byte>)
    ensures DecidedBy(CreatePaymentRequest(b, now, sender, tid, payload), Verdict(PaymentRequestRules(b, now, sender, tid, payload)))
  {
    Unfold(PaymentRequestRules(b, now, sender, tid, payload));
  }

  lemma AuthorizationSplit(b: Book, now: nat, body: ResultBody)
    requires body.Authorization?
    ensures
      var answer, caps := AnswerRules(b, now, body), CapRules(HomeOf(b, body.requestId), body.amountDrops);
      Verdict(AuthorizationRules(b, now, body)) == if Verdict(answer).Some? then Verdict(answer) else Verdict(caps)
  {
    Concat(AnswerRules(b, now, body), CapRules(HomeOf(b, body.requestId), body.amountDrops), 0);
  }

  lemma AuthorizationDecided(b: Book, now: nat, res: TeeResult)
    ensures DecidedBy(SubmitAuthorization(b, now, res), Verdict(TeeRules(b, res, 1) + AuthorizationRules(b, now, res.body)))
  {
    hide CheckTee, TeeRules;
    TeeDecided(b, res);
    Concat(TeeRules(b, res, 1), AuthorizationRules(b, now, res.body), 0);
    if res.body.Authorization? {
      AuthorizationSplit(b, now, res.body);
      Unfold(AnswerRules(b, now, res.body));
      Unfold(CapRules(HomeOf(b, res.body.requestId), res.body.amountDrops));
    } else {
      Unfold(AuthorizationRules(b, now, res.body));
    }
  }

  lemma SignatureRequestDecided(b: Book, now: nat, sender: Address, rid: nat)
    ensures DecidedBy(RequestSignature(b, now, sender, rid), Verdict(SignatureRequestRules(b, now, sender, rid)))
  {
    Unfold(SignatureRequestRules(b, now, sender, rid));
  }

  lemma SignedPaymentDecided(b: Book, now: nat, res: TeeResult)
    ensures DecidedBy(SubmitSignedPayment(b, now, res), Verdict(TeeRules(b, res, 1) + SignedPaymentRules(b, now, res.body)))
  {
    hide CheckTee, TeeRules;
    TeeDecided(b, res);
    Concat(TeeRules(b, res, 1), SignedPaymentRules(b, now, res.body), 0);
    Unfold(SignedPaymentRules(b, now, res.body));
  }

  lemma FailureDecided(b: Book, res: TeeResult)
    ensures DecidedBy(SubmitFailure(b, res), Verdict(TeeRules(b, res, 0) + FailureRules(b, res.body)))
  {
    Concat(TeeRules(b, res, 0), FailureRules(b, res.body), 0);
    Unfold(TeeRules(b, res, 0));
    Unfold(FailureRules(b, res.body));
  }

  lemma RequestEndsDecided(b: Book, now: nat, sender: Address, rid: nat)
    ensures DecidedBy(CancelRequest(b, sender, rid), Verdict(CancelRules(b, sender, rid)))
    ensures DecidedBy(ExpireRequest(b, now, rid), Verdict(ExpireRules(b, now, rid)))
  {
    Unfold(CancelRules(b, sender, rid));
    Unfold(ExpireRules(b, now, rid));
  }

  /** Every entry point, in any state, at any time, for any caller: it succeeds exactly when every
      requirement holds, and otherwise reverts with the error of the first that does not. */
  lemma RulesDecide(b: Book, now: nat, c: Call)
    ensures Perform(b, now, c).Ok? <==> Verdict(RulesOf(b, now, c)).None?
    ensures Perform(b, now, c).Err? ==> Verdict(RulesOf(b, now, c)) == Some(Perform(b, now, c).error)
  {
    hide CreateTreasury, BindTreasuryAddress, RequestPolicyUpdate, ConfirmPolicy, CreatePaymentRequest, SubmitAuthorization,
         RequestSignature, SubmitSignedPayment, CancelRequest, ExpireRequest, SubmitFailure;
    hide CreateTreasuryRules, BindRules, PolicyUpdateRules, ConfirmRules, PaymentRequestRules, AuthorizationRules,
         SignatureRequestRules, SignedPaymentRules, CancelRules, ExpireRules, FailureRules, TeeRules;
    match c
    case CallCreateTreasury(sender, p) => CreateTreasuryDecided(b, sender, p);
    case CallBind(res) => BindDecided(b, res);
    case CallRequestPolicyUpdate(sender, tid, p) => PolicyUpdateDecided(b, sender, tid, p);
    case CallConfirmPolicy(res) => ConfirmDecided(b, res);
    case CallCreatePaymentRequest(sender, tid, payload) => PaymentRequestDecided(b, now, sender, tid, payload);
    case CallSubmitAuthorization(res) => AuthorizationDecided(b, now, res);
    case CallRequestSignature(sender, rid) => SignatureRequestDecided(b, now, sender, rid);
    case CallSubmitSignedPayment(res) => SignedPaymentDecided(b, now, res);
    case CallCancelRequest(sender, rid) => RequestEndsDecided(b, now, sender, rid);
    case CallExpireRequest(rid) => RequestEndsDecided(b, now, 0, rid);
    case CallSubmitFailure(res) => FailureDecided(b, res);
    case CallSetTreasuryPaused(sender, tid, _) => Unfold(TreasuryPauseRules(b, sender, tid));
    case CallSetPaused(sender, _) => Unfold(PauseRules(b, sender));
    case CallReportBroadcast(rid, txId) => Unfold(BroadcastRules(b, rid, txId));
    case CallMarkSettled(sender, rid, _) => Unfold(SettleRules(b, sender, rid));
  }
}
