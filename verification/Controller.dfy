/** BridgeSafeController as the object it is: mappings and counters written entry by entry. Every
    entry point is proved against its storage function in Books.

    A Solidity revert undoes the writes made before it. The methods therefore run the checks that
    can still fail (checked counters, the registry's extension id) before their first write; no other
    check lies between, so the error raised is the same. */
module Controllers {
  import opened Wrappers
  import opened Bytes
  import opened Protocol
  import opened Books

  class BridgeSafeController {
    const config: Config
    var paused: bool
    var treasuries: map<nat, Treasury>
    var treasuryCount: nat
    var requests: map<nat, Request>
    var requestCount: nat
    var treasuryRequests: map<nat, seq<nat>>
    var sent: seq<Instruction>

    function Storage(): Book
      reads this
    {
      Book(config, paused, treasuries, treasuryCount, requests, requestCount, treasuryRequests, sent)
    }

    /** A call did what its storage function says: moved to the new storage, or reverted with the
        error and changed nothing. */
    ghost predicate Did(before: Book, outcome: Outcome, error: Option<Error>)
      reads this
    {
      match outcome
      case Ok(b) => error == None && Storage() == b
      case Err(e) => error == Some(e) && Storage() == before
    }

    constructor (config: Config)
      ensures Storage() == InitialBook(config)
    {
      this.config := config;
      paused := false;
      treasuries, treasuryCount := map[], 0;
      requests, requestCount := map[], 0;
      treasuryRequests, sent := map[], [];
    }

    // ---- Internals ----

    method RequireTeeResult(res: TeeResult) returns (error: Option<Error>)
      ensures error == CheckTee(config, res)
    {
      if config.teeAddress == 0 {
        return Some(TeeAddressUnset);
      }
      if res.status != 1 {
        return Some(TeeReportedFailure);
      }
      if res.signer != config.teeAddress {
        return Some(BadTeeSignature);
      }
      return None;
    }

    method Send(h: Header, command: Command, sender: Address)
      requires config.extensionId != 0
      modifies this`sent
      ensures sent == old(sent) + [Instruction(h, command, sender)]
    {
      sent := sent + [Instruction(h, command, sender)];
    }

    // ---- Treasury lifecycle ----

    method CreateTreasury(sender: Address, policy: Policy) returns (error: Option<Error>, treasuryId: nat)
      modifies this
      ensures Did(old(Storage()), Books.CreateTreasury(old(Storage()), sender, policy), error)
      ensures error.None? ==> treasuryId == treasuryCount
    {
      treasuryId := 0;
      if paused {
        return Some(ContractPaused), 0;
      }
      if !ValidPolicy(policy) {
        return Some(InvalidPolicy), 0;
      }
      if treasuryCount + 1 >= LIMIT_256 {
        return Some(Panic), 0;
      }
      if config.extensionId == 0 {
        return Some(ExtensionIdUnset), 0;
      }
      treasuryCount := treasuryCount + 1;
      treasuryId := treasuryCount;
      var t := Treasury(sender, "", Zero, policy, PolicyCommitment(policy), Zero, 0, 1, false, false);
      treasuries := treasuries[treasuryId := t];
      Send(TreasuryHeader(Storage(), treasuryId, t.policyCommitment), CreateTreasuryKey(policy), sender);
      error := None;
    }

    method BindTreasuryAddress(res: TeeResult) returns (error: Option<Error>)
      modifies this
      ensures Did(old(Storage()), Books.BindTreasuryAddress(old(Storage()), res), error)
    {
      error := RequireTeeResult(res);
      if error.Some? {
        return;
      }
      match res.body {
        case Bind(_, _, tid, address, commitment) =>
          if !BoundHere(config, res.body) {
            return Some(ResultBindingMismatch);
          }
          if tid !in treasuries {
            return Some(UnknownTreasury);
          }
          var t := treasuries[tid];
          if t.bound {
            return Some(TreasuryAlreadyBound);
          }
          if commitment != t.policyCommitment || |address| == 0 {
            return Some(ResultBindingMismatch);
          }
          t := t.(xrplAddress := address);
          t := t.(xrplAddressHash := HashText(address));
          t := t.(bound := true);
          treasuries := treasuries[tid := t];
        case _ => error := Some(MalformedResult);
      }
    }

    method RequestPolicyUpdate(sender: Address, tid: nat, policy: Policy) returns (error: Option<Error>)
      modifies this
      ensures Did(old(Storage()), Books.RequestPolicyUpdate(old(Storage()), sender, tid, policy), error)
    {
      if paused {
        return Some(ContractPaused);
      }
      if tid !in treasuries {
        return Some(UnknownTreasury);
      }
      var t := treasuries[tid];
      if sender != t.owner {
        return Some(NotTreasuryOwner);
      }
      if !t.bound {
        return Some(TreasuryNotBound);
      }
      if !ValidPolicy(policy) || policy.maxTotalDrops < t.reservedDrops {
        return Some(InvalidPolicy);
      }
      if config.extensionId == 0 {
        return Some(ExtensionIdUnset);
      }
      var commitment := PolicyCommitment(policy);
      treasuries := treasuries[tid := t.(pendingPolicyCommitment := commitment)];
      Send(TreasuryHeader(Storage(), tid, commitment), RegisterPolicy(policy), sender);
      error := None;
    }

    method ConfirmPolicy(res: TeeResult) returns (error: Option<Error>)
      modifies this
      ensures Did(old(Storage()), Books.ConfirmPolicy(old(Storage()), res), error)
    {
      error := RequireTeeResult(res);
      if error.Some? {
        return;
      }
      match res.body {
        case Confirm(_, _, tid, policy, commitment) =>
          if !BoundHere(config, res.body) || commitment != PolicyCommitment(policy) {
            return Some(ResultBindingMismatch);
          }
          if tid !in treasuries {
            return Some(UnknownTreasury);
          }
          var t := treasuries[tid];
          if t.pendingPolicyCommitment == Zero || commitment != t.pendingPolicyCommitment {
            return Some(NoPendingPolicy);
          }
          t := t.(pendingPolicyCommitment := Zero);
          t := t.(policy := policy);
          t := t.(policyCommitment := commitment);
          treasuries := treasuries[tid := t];
        case _ => error := Some(MalformedResult);
      }
    }

    method SetTreasuryPaused(sender: Address, tid: nat, flag: bool) returns (error: Option<Error>)
      modifies this
      ensures Did(old(Storage()), Books.SetTreasuryPaused(old(Storage()), sender, tid, flag), error)
    {
      if tid !in treasuries {
        return Some(UnknownTreasury);
      }
      if sender != treasuries[tid].owner && sender != config.owner {
        return Some(NotTreasuryOwner);
      }
      treasuries := treasuries[tid := treasuries[tid].(paused := flag)];
      error := None;
    }

    method SetPaused(sender: Address, flag: bool) returns (error: Option<Error>)
      modifies this
      ensures Did(old(Storage()), Books.SetPaused(old(Storage()), sender, flag), error)
    {
      if sender != config.owner {
        return Some(NotOwner);
      }
      paused := flag;
      error := None;
    }

    // ---- Payment lifecycle ----

    method CreatePaymentRequest(now: nat, sender: Address, tid: nat, payload: seq<byte>)
      returns (error: Option<Error>, requestId: nat)
      modifies this
      ensures Did(old(Storage()), Books.CreatePaymentRequest(old(Storage()), now, sender, tid, payload), error)
      ensures error.None? ==> requestId == requestCount
    {
      requestId := 0;
      if paused {
        return Some(ContractPaused), 0;
      }
      if |payload| == 0 {
        return Some(EmptyPayload), 0;
      }
      if tid !in treasuries {
        return Some(UnknownTreasury), 0;
      }
      var t := treasuries[tid];
      if sender != t.owner {
        return Some(NotTreasuryOwner), 0;
      }
      if !t.bound {
        return Some(TreasuryNotBound), 0;
      }
      if t.paused {
        return Some(TreasuryPaused), 0;
      }
      var created := now % LIMIT_64;
      if requestCount + 1 >= LIMIT_256 || t.nextNonce + 1 >= LIMIT_64 || created + t.policy.requestTtlSeconds >= LIMIT_64 {
        return Some(Panic), 0;
      }
      if config.extensionId == 0 {
        return Some(ExtensionIdUnset), 0;
      }
      requestCount := requestCount + 1;
      requestId := requestCount;
      var nonce := t.nextNonce;
      treasuries := treasuries[tid := t.(nextNonce := nonce + 1)];
      var r := Request(tid, sender, nonce, created, created + t.policy.requestTtlSeconds, HashData(payload),
                       MemoRef(config.chainId, config.self, tid, requestId, nonce), 0, Zero, Zero, Zero, Zero, CREATED);
      requests := requests[requestId := r];
      treasuryRequests := treasuryRequests[tid := RequestsOf(Storage(), tid) + [requestId]];
      Send(RequestHeader(Storage(), requestId, r, t.policyCommitment), AuthorizePayment(payload), sender);
      error := None;
    }

    method SubmitAuthorization(now: nat, res: TeeResult) returns (error: Option<Error>)
      modifies this
      ensures Did(old(Storage()), Books.SubmitAuthorization(old(Storage()), now, res), error)
    {
      error := RequireTeeResult(res);
      if error.Some? {
        return;
      }
      match res.body {
        case Authorization(_, _, rid, memoRef, amount, destinationHash, payloadHash) =>
          if !BoundHere(config, res.body) {
            return Some(ResultBindingMismatch);
          }
          if rid !in requests {
            return Some(UnknownRequest);
          }
          var r := requests[rid];
          if r.state != CREATED {
            return Some(WrongState);
          }
          if now > r.expiresAt {
            return Some(RequestExpired);
          }
          if memoRef != r.memoRef || payloadHash != r.payloadHash {
            return Some(ResultBindingMismatch);
          }
          if destinationHash == Zero || amount == 0 || r.treasuryId !in treasuries {
            return Some(PolicyViolation);
          }
          var t := treasuries[r.treasuryId];
          if amount > t.policy.maxPerPaymentDrops {
            return Some(PolicyViolation);
          }
          var newReserved := t.reservedDrops + amount;
          if newReserved >= LIMIT_256 {
            return Some(Panic);
          }
          if newReserved > t.policy.maxTotalDrops {
            return Some(PolicyViolation);
          }
          treasuries := treasuries[r.treasuryId := t.(reservedDrops := newReserved)];
          r := r.(amountDrops := amount);
          r := r.(destinationHash := destinationHash);
          r := r.(state := AUTHORIZED);
          requests := requests[rid := r];
        case _ => error := Some(MalformedResult);
      }
    }

    method RequestSignature(now: nat, sender: Address, rid: nat) returns (error: Option<Error>)
      modifies this
      ensures Did(old(Storage()), Books.RequestSignature(old(Storage()), now, sender, rid), error)
    {
      if paused {
        return Some(ContractPaused);
      }
      if rid !in requests {
        return Some(UnknownRequest);
      }
      var r := requests[rid];
      if r.treasuryId !in treasuries || sender != treasuries[r.treasuryId].owner {
        return Some(NotTreasuryOwner);
      }
      var t := treasuries[r.treasuryId];
      if t.paused {
        return Some(TreasuryPaused);
      }
      if r.state != AUTHORIZED {
        return Some(WrongState);
      }
      if now > r.expiresAt {
        return Some(RequestExpired);
      }
      if config.extensionId == 0 {
        return Some(ExtensionIdUnset);
      }
      Send(RequestHeader(Storage(), rid, r, t.policyCommitment), SignXrplPayment, sender);
      error := None;
    }

    method SubmitSignedPayment(now: nat, res: TeeResult) returns (error: Option<Error>)
      modifies this
      ensures Did(old(Storage()), Books.SubmitSignedPayment(old(Storage()), now, res), error)
    {
      error := RequireTeeResult(res);
      if error.Some? {
        return;
      }
      match res.body {
        case SignedPayment(_, _, rid, memoRef, txId, blob) =>
          if !BoundHere(config, res.body) {
            return Some(ResultBindingMismatch);
          }
          if rid !in requests {
            return Some(UnknownRequest);
          }
          var r := requests[rid];
          if r.state != AUTHORIZED {
            return Some(WrongState);
          }
          if now > r.expiresAt {
            return Some(RequestExpired);
          }
          if memoRef != r.memoRef || txId == Zero || |blob| == 0 {
            return Some(ResultBindingMismatch);
          }
          r := r.(expectedTxId := txId);
          r := r.(signedBlobHash := HashData(blob));
          r := r.(state := SIGNED);
          requests := requests[rid := r];
        case _ => error := Some(MalformedResult);
      }
    }

    method ReportBroadcast(rid: nat, txId: Bytes32) returns (error: Option<Error>)
      modifies this
      ensures Did(old(Storage()), Books.ReportBroadcast(old(Storage()), rid, txId), error)
    {
      if rid !in requests {
        return Some(UnknownRequest);
      }
      var r := requests[rid];
      if r.state != SIGNED {
        return Some(WrongState);
      }
      if txId != r.expectedTxId {
        return Some(TxIdMismatch);
      }
      r := r.(xrplTxId := txId);
      r := r.(state := BROADCAST);
      requests := requests[rid := r];
      error := None;
    }

    method MarkSettled(sender: Address, rid: nat, txId: Bytes32) returns (error: Option<Error>)
      modifies this
      ensures Did(old(Storage()), Books.MarkSettled(old(Storage()), sender, rid, txId), error)
    {
      if sender != config.fdcVerifier {
        return Some(NotFdcVerifier);
      }
      if rid !in requests {
        return Some(UnknownRequest);
      }
      var r := requests[rid];
      if r.state != SIGNED && r.state != BROADCAST {
        return Some(WrongState);
      }
      r := r.(xrplTxId := txId);
      r := r.(state := SETTLED);
      requests := requests[rid := r];
      error := None;
    }

    /** The reservation is subtracted with checked arithmetic, then the state is written. */
    method ReleaseRequest(rid: nat, final: RequestState) returns (error: Option<Error>)
      requires rid in requests
      modifies this
      ensures Did(old(Storage()), Release(old(Storage()), rid, final), error)
    {
      var r := requests[rid];
      if r.state != CREATED {
        if r.treasuryId !in treasuries || treasuries[r.treasuryId].reservedDrops < r.amountDrops {
          return Some(Panic);
        }
        var t := treasuries[r.treasuryId];
        treasuries := treasuries[r.treasuryId := t.(reservedDrops := t.reservedDrops - r.amountDrops)];
      }
      requests := requests[rid := r.(state := final)];
      error := None;
    }

    method CancelRequest(sender: Address, rid: nat) returns (error: Option<Error>)
      modifies this
      ensures Did(old(Storage()), Books.CancelRequest(old(Storage()), sender, rid), error)
    {
      if rid !in requests {
        return Some(UnknownRequest);
      }
      var r := requests[rid];
      if r.treasuryId !in treasuries || sender != treasuries[r.treasuryId].owner {
        return Some(NotTreasuryOwner);
      }
      if r.state != CREATED && r.state != AUTHORIZED {
        return Some(WrongState);
      }
      error := ReleaseRequest(rid, CANCELLED);
    }

    method ExpireRequest(now: nat, rid: nat) returns (error: Option<Error>)
      modifies this
      ensures Did(old(Storage()), Books.ExpireRequest(old(Storage()), now, rid), error)
    {
      if rid !in requests {
        return Some(UnknownRequest);
      }
      var r := requests[rid];
      var expirableAt: nat := r.expiresAt;
      if r.state == SIGNED || r.state == BROADCAST {
        if expirableAt + SETTLEMENT_GRACE >= LIMIT_64 {
          return Some(Panic);
        }
        expirableAt := expirableAt + SETTLEMENT_GRACE;
      } else if r.state != CREATED && r.state != AUTHORIZED {
        return Some(WrongState);
      }
      if now <= expirableAt {
        return Some(NotYetExpired);
      }
      error := ReleaseRequest(rid, EXPIRED);
    }

    method SubmitFailure(res: TeeResult) returns (error: Option<Error>)
      modifies this
      ensures Did(old(Storage()), Books.SubmitFailure(old(Storage()), res), error)
    {
      if config.teeAddress == 0 {
        return Some(TeeAddressUnset);
      }
      if res.status != 0 {
        return Some(TeeReportedFailure);
      }
      if res.signer != config.teeAddress {
        return Some(BadTeeSignature);
      }
      match res.body {
        case Failure(_, _, rid, reason) =>
          if !BoundHere(config, res.body) {
            return Some(ResultBindingMismatch);
          }
          if rid !in requests {
            return Some(UnknownRequest);
          }
          if requests[rid].state != CREATED && requests[rid].state != AUTHORIZED {
            return Some(WrongState);
          }
          error := ReleaseRequest(rid, FAILED);
        case _ => error := Some(MalformedResult);
      }
    }

    // ---- Views ----

    method SettlementExpectation(word: Bytes32 -> Word32, rid: nat) returns (r: Result<Expectation, Error>)
      ensures r == Books.SettlementExpectation(Storage(), word, rid)
    {
      if rid !in requests {
        return Err(UnknownRequest);
      }
      var request := requests[rid];
      var source := Zero;
      if request.treasuryId in treasuries {
        source := treasuries[request.treasuryId].xrplAddressHash;
      }
      r := Ok(Expectation(source, request.destinationHash, request.amountDrops, EncodeMemo(word, request.memoRef),
                          request.state));
    }

    method AvailableDrops(tid: nat) returns (r: Result<nat, Error>)
      ensures r == Books.AvailableDrops(Storage(), tid)
    {
      if tid !in treasuries {
        return Err(UnknownTreasury);
      }
      var t := treasuries[tid];
      if t.policy.maxTotalDrops < t.reservedDrops {
        return Err(Panic);
      }
      r := Ok(t.policy.maxTotalDrops - t.reservedDrops);
    }
  }
}
