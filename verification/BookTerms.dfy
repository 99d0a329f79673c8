/** What each accepted call does to the recorded terms of a payment, to a treasury's bound address,
    and to the log of instructions. */
module BookTerms {
  import opened Wrappers
  import opened Protocol
  import opened Books
  import opened BookInvariant
  import opened BookRuns

  /** The result a call submits, if it submits one. */
  function ResultOf(c: Call): Option<TeeResult> {
    match c
    case CallBind(res) => Some(res)
    case CallConfirmPolicy(res) => Some(res)
    case CallSubmitAuthorization(res) => Some(res)
    case CallSubmitSignedPayment(res) => Some(res)
    case CallSubmitFailure(res) => Some(res)
    case _ => None
  }

  // ---- Authority ----

  /** The address whose say-so a call needs. */
  function ActorOf(c: Call): Option<Address> {
    match c
    case CallRequestPolicyUpdate(sender, _, _) => Some(sender)
    case CallCreatePaymentRequest(sender, _, _) => Some(sender)
    case CallRequestSignature(sender, _) => Some(sender)
    case CallCancelRequest(sender, _) => Some(sender)
    case _ => None
  }

  /** The treasury such a call acts on. */
  function ActedOn(b: Book, c: Call): nat {
    match c
    case CallRequestPolicyUpdate(_, tid, _) => tid
    case CallCreatePaymentRequest(_, tid, _) => tid
    case CallRequestSignature(_, rid) => if rid in b.requests then b.requests[rid].treasuryId else 0
    case CallCancelRequest(_, rid) => if rid in b.requests then b.requests[rid].treasuryId else 0
    case _ => 0
  }

  /** Calls that start something; pausing stops these and no others. */
  predicate Starts(c: Call) {
    c.CallCreateTreasury? || c.CallRequestPolicyUpdate? || c.CallCreatePaymentRequest? || c.CallRequestSignature?
  }

  /** Whatever is accepted was allowed: an owner's call comes from the treasury's owner, a result from
      the registered enclave for this contract on this chain, and nothing starts while paused. */
  lemma AcceptedWasAllowed(b: Book, now: nat, c: Call)
    requires Perform(b, now, c).Ok?
    ensures ActorOf(c).Some? ==> ActedOn(b, c) in b.treasuries && ActorOf(c).value == b.treasuries[ActedOn(b, c)].owner
    ensures ResultOf(c).Some? ==>
      && b.config.teeAddress != 0 && ResultOf(c).value.signer == b.config.teeAddress
      && ResultOf(c).value.body.chainId == b.config.chainId && ResultOf(c).value.body.controller == b.config.self
    ensures Starts(c) ==> !b.paused && b.config.extensionId != 0
    ensures c.CallCreatePaymentRequest? || c.CallRequestSignature? ==> !b.treasuries[ActedOn(b, c)].paused
    ensures c.CallMarkSettled? ==> c.sender == b.config.fdcVerifier
  {
    hide Release, ValidPolicy, TreasuryHeader, RequestHeader;
  }

  // ---- Terms ----

  /** The payment terms and signature of a request are as they were. */
  ghost predicate SameTerms(r: Request, r': Request) {
    && r'.amountDrops == r.amountDrops && r'.destinationHash == r.destinationHash
    && r'.expectedTxId == r.expectedTxId && r'.signedBlobHash == r.signedBlobHash
  }

  /** An authorization writes the terms; a signature writes the blob's hash and id; ending a request
      or settling it writes neither. */
  ghost predicate TermsStep(b: Book, now: nat, c: Call, rid: nat, r: Request, r': Request) {
    match c
    case CallSubmitAuthorization(res) =>
      if res.body.Authorization? && res.body.requestId == rid then
        && res.signer == b.config.teeAddress && r.state == CREATED
        && res.body.destinationHash != Zero && res.body.amountDrops > 0
        && r' == r.(amountDrops := res.body.amountDrops, destinationHash := res.body.destinationHash, state := AUTHORIZED)
      else r' == r
    case CallSubmitSignedPayment(res) =>
      if res.body.SignedPayment? && res.body.requestId == rid then
        && res.signer == b.config.teeAddress && r.state == AUTHORIZED && now <= r.expiresAt
        && r' == r.(expectedTxId := res.body.expectedTxId, signedBlobHash := HashData(res.body.signedTxBlob), state := SIGNED)
      else r' == r
    case CallReportBroadcast(_, _) =>
      r' == r || (r.state == SIGNED && r'.state == BROADCAST && SameTerms(r, r'))
    case CallMarkSettled(_, _, _) =>
      r' == r || ((r.state == SIGNED || r.state == BROADCAST) && r'.state == SETTLED && SameTerms(r, r'))
    case _ =>
      r' == r || (EndingCall(c) && TouchedRequest(c) == rid && EndsRequest(now, r, r')
                  && (r'.state == EXPIRED <==> c.CallExpireRequest?) && (r'.state == FAILED <==> c.CallSubmitFailure?))
  }

  ghost predicate EndsRequest(now: nat, r: Request, r': Request) {
    && SameTerms(r, r') && (r'.state == EXPIRED || r'.state == CANCELLED || r'.state == FAILED)
    && (r.state == CREATED || r.state == AUTHORIZED || r.state == SIGNED || r.state == BROADCAST)
    && (r.state == SIGNED || r.state == BROADCAST ==> r'.state == EXPIRED && now > r.expiresAt + SETTLEMENT_GRACE)
  }

  lemma ReleaseEnds(b: Book, rid: nat, final: RequestState, k: nat)
    requires rid in b.requests && Release(b, rid, final).Ok? && k in b.requests
    ensures
      var b' := Release(b, rid, final).value;
      k in b'.requests && b'.requests[k] == if k == rid then b.requests[rid].(state := final) else b.requests[k]
  {
  }

  lemma EndingCallTerms(b: Book, now: nat, c: Call, k: nat)
    requires EndingCall(c) && Perform(b, now, c).Ok? && k in b.requests
    ensures
      var b' := After(b, now, c);
      k in b'.requests && TermsStep(b, now, c, k, b.requests[k], b'.requests[k])
  {
    hide BoundHere, Release;
    match c
    case CallCancelRequest(_, rid) => ReleaseEnds(b, rid, CANCELLED, k);
    case CallExpireRequest(rid) => ReleaseEnds(b, rid, EXPIRED, k);
    case CallSubmitFailure(res) => ReleaseEnds(b, res.body.requestId, FAILED, k);
  }

  lemma CallTerms(b: Book, now: nat, c: Call, k: nat)
    requires Numbered(b) && Perform(b, now, c).Ok? && k in b.requests
    ensures
      var b' := After(b, now, c);
      k in b'.requests && TermsStep(b, now, c, k, b.requests[k], b'.requests[k])
  {
    hide BoundHere, ValidPolicy, TreasuryHeader, RequestHeader, Release;
    if EndingCall(c) {
      EndingCallTerms(b, now, c, k);
    }
  }

  lemma NewRequestTerms(b: Book, now: nat, c: Call, k: nat)
    requires Numbered(b) && k !in b.requests && k in After(b, now, c).requests
    ensures
      var r := After(b, now, c).requests[k];
      r.state == CREATED && r.destinationHash == Zero && r.signedBlobHash == Zero
  {
    assert Perform(b, now, c).Err? ==> After(b, now, c) == b;
    if RequestCall(c) && Perform(b, now, c).Ok? {
      RequestCallKeys(b, now, c);
    } else {
      hide BoundHere, ValidPolicy, TreasuryHeader, RequestHeader;
    }
  }

  lemma RequestCallKeys(b: Book, now: nat, c: Call)
    requires RequestCall(c) && Perform(b, now, c).Ok?
    ensures After(b, now, c).requests.Keys == b.requests.Keys
  {
    hide After, Perform, MovesReserved, SameIdentity;
    RequestCallMoves(b, now, c);
  }

  // ---- Stages ----

  /** Which of a request's records go with which states. */
  predicate Staged(r: Request) {
    && r.state != NONE
    && (Counts(Reserving, r.state) ==> r.destinationHash != Zero) && (r.state == CREATED ==> r.destinationHash == Zero)
    && (r.state == SIGNED || r.state == BROADCAST || r.state == SETTLED ==> r.signedBlobHash != Zero)
    && (r.state == CREATED || r.state == AUTHORIZED ==> r.signedBlobHash == Zero)
  }

  predicate AllStaged(b: Book) {
    forall rid :: rid in b.requests ==> Staged(b.requests[rid])
  }

  // ---- Addresses ----

  /** Only a bind result changes a treasury's address, once. */
  ghost predicate AddressStep(b: Book, c: Call, tid: nat, t: Books.Treasury, t': Books.Treasury) {
    if c.CallBind? && c.res.body.Bind? && c.res.body.treasuryId == tid then
      && !t.bound && t'.bound && t'.xrplAddress == c.res.body.xrplAddress && c.res.signer == b.config.teeAddress
      && c.res.body.policyCommitment == t.policyCommitment
    else
      t'.bound == t.bound && t'.xrplAddress == t.xrplAddress
  }

  lemma TreasuryCallAddress(b: Book, now: nat, c: Call, tid: nat)
    requires TreasuryCall(c) && Perform(b, now, c).Ok? && tid in b.treasuries
    ensures tid in After(b, now, c).treasuries
    ensures AddressStep(b, c, tid, b.treasuries[tid], After(b, now, c).treasuries[tid])
  {
    hide BoundHere, ValidPolicy, TreasuryHeader;
  }

  lemma CallAddress(b: Book, now: nat, c: Call, tid: nat)
    requires Numbered(b) && Perform(b, now, c).Ok? && tid in b.treasuries
    ensures tid in After(b, now, c).treasuries
    ensures AddressStep(b, c, tid, b.treasuries[tid], After(b, now, c).treasuries[tid])
  {
    hide After, Perform, BudgetStep, Numbered, SameIdentity;
    if TreasuryCall(c) {
      TreasuryCallAddress(b, now, c, tid);
    } else if RequestCall(c) {
      RequestCallMoves(b, now, c);
    } else {
      OtherCallAdds(b, now, c);
    }
  }

  lemma NewTreasuryUnbound(b: Book, now: nat, c: Call, tid: nat)
    requires tid !in b.treasuries && tid in After(b, now, c).treasuries
    ensures !After(b, now, c).treasuries[tid].bound
    ensures c.CallCreateTreasury? && After(b, now, c).treasuries[tid].owner == c.sender
  {
    hide BoundHere, ValidPolicy, TreasuryHeader, RequestHeader;
  }

  // ---- Instructions ----

  /** A header names its request as recorded. */
  ghost predicate HeaderFor(b: Book, h: Header) {
    && h.requestId in b.requests
    && var r := b.requests[h.requestId];
       h.treasuryId == r.treasuryId && h.memoRef == r.memoRef && h.expiresAt == r.expiresAt && h.nonce == r.nonce
  }

  /** An instruction in the log says what the controller's storage says. */
  ghost predicate InstructionOk(b: Book, i: Instruction) {
    && i.header.chainId == b.config.chainId && i.header.controller == b.config.self
    && match i.command
       case CreateTreasuryKey(p) => i.header.policyCommitment == PolicyCommitment(p)
       case RegisterPolicy(p) => i.header.policyCommitment == PolicyCommitment(p)
       case AuthorizePayment(c) => HeaderFor(b, i.header) && b.requests[i.header.requestId].payloadHash == HashData(c)
       case SignXrplPayment => HeaderFor(b, i.header) && b.requests[i.header.requestId].destinationHash != Zero
  }

  /** A call adds at most one instruction to the log. */
  lemma CallSendsOne(b: Book, now: nat, c: Call)
    ensures b.sent <= After(b, now, c).sent
  {
    hide BoundHere, ValidPolicy, Release;
    if EndingCall(c) && Perform(b, now, c).Ok? {
      EndingCallSends(b, now, c);
    }
  }

  /** The log is as it was, or one instruction longer, and that instruction is in order. */
  ghost predicate SendsInOrder(b: Book, b': Book) {
    || b'.sent == b.sent
    || (|b'.sent| == |b.sent| + 1 && b.sent <= b'.sent && InstructionOk(b', b'.sent[|b.sent|]))
  }

  lemma CallSends(b: Book, now: nat, c: Call)
    requires Perform(b, now, c).Ok? && AllStaged(b)
    ensures SendsInOrder(b, After(b, now, c))
  {
    hide BoundHere, ValidPolicy, Release;
    if EndingCall(c) {
      EndingCallSends(b, now, c);
    }
  }

  lemma EndingCallSends(b: Book, now: nat, c: Call)
    requires EndingCall(c) && Perform(b, now, c).Ok?
    ensures After(b, now, c).sent == b.sent
  {
    hide BoundHere;
  }
}
