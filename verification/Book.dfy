/** The controller's storage as a value, and each entry point as a function from storage to new
    storage or a revert (contracts/src/BridgeSafeController.sol). Checks come in the source's order,
    so the error is the first one the contract would raise. A result whose body belongs to another
    handler does not decode (MalformedResult). Checked arithmetic reverts with Panic. */
module Books {
  import opened Wrappers
  import opened Bytes
  import opened Protocol

  const SETTLEMENT_GRACE: nat := 3600
  const MAX_REQUEST_TTL: nat := 604800
  const LIMIT_64: nat := 0x1_0000_0000_0000_0000
  const LIMIT_256: nat := 0x1_0000_0000_0000_0000_0000_0000_0000_0000_0000_0000_0000_0000_0000_0000_0000_0000

  datatype RequestState = NONE | CREATED | AUTHORIZED | SIGNED | BROADCAST | SETTLED | EXPIRED | CANCELLED | FAILED

  /** The enum's ordinal. */
  function Number(s: RequestState): nat {
    match s
    case NONE => 0
    case CREATED => 1
    case AUTHORIZED => 2
    case SIGNED => 3
    case BROADCAST => 4
    case SETTLED => 5
    case EXPIRED => 6
    case CANCELLED => 7
    case FAILED => 8
  }

  datatype Treasury = Treasury(
    owner: Address, xrplAddress: string, xrplAddressHash: Bytes32, policy: Policy,
    policyCommitment: Bytes32, pendingPolicyCommitment: Bytes32,
    reservedDrops: nat, nextNonce: uint64, bound: bool, paused: bool)

  datatype Request = Request(
    treasuryId: nat, requester: Address, nonce: uint64, createdAt: uint64, expiresAt: uint64,
    payloadHash: Bytes32, memoRef: Bytes32, amountDrops: nat, destinationHash: Bytes32,
    expectedTxId: Bytes32, signedBlobHash: Bytes32, xrplTxId: Bytes32, state: RequestState)

  /** What deployment and administration fix. */
  datatype Config = Config(
    chainId: nat, self: Address, owner: Address, teeAddress: Address, fdcVerifier: Address, extensionId: nat)

  /** A key absent from a map is the zero-initialized mapping entry. `sent` is the registry's log of
      accepted instructions. */
  datatype Book = Book(
    config: Config, paused: bool,
    treasuries: map<nat, Treasury>, treasuryCount: nat,
    requests: map<nat, Request>, requestCount: nat,
    treasuryRequests: map<nat, seq<nat>>, sent: seq<Instruction>)

  datatype Error =
    | NotOwner | NotTreasuryOwner | NotFdcVerifier | ContractPaused | TreasuryPaused
    | UnknownTreasury | UnknownRequest | TreasuryNotBound | TreasuryAlreadyBound
    | InvalidPolicy | NoPendingPolicy | WrongState | RequestExpired | NotYetExpired
    | TeeAddressUnset | TeeReportedFailure | BadTeeSignature | MalformedResult | ResultBindingMismatch
    | PolicyViolation | EmptyPayload | ExtensionIdUnset | TxIdMismatch | Panic

  type Outcome = Result<Book, Error>

  function InitialBook(config: Config): Book {
    Book(config, false, map[], 0, map[], 0, map[], [])
  }

  function RequestsOf(b: Book, tid: nat): seq<nat> {
    if tid in b.treasuryRequests then b.treasuryRequests[tid] else []
  }

  // ---- Shared checks ----

  predicate ValidPolicy(p: Policy) {
    p.maxPerPaymentDrops > 0 && p.maxTotalDrops >= p.maxPerPaymentDrops && 0 < p.requestTtlSeconds <= MAX_REQUEST_TTL
  }

  /** A successful result signed by the registered enclave. */
  function CheckTee(config: Config, res: TeeResult): Option<Error> {
    if config.teeAddress == 0 then Some(TeeAddressUnset)
    else if res.status != 1 then Some(TeeReportedFailure)
    else if res.signer != config.teeAddress then Some(BadTeeSignature)
    else None
  }

  predicate BoundHere(config: Config, body: ResultBody) {
    body.chainId == config.chainId && body.controller == config.self
  }

  function TreasuryHeader(b: Book, tid: nat, commitment: Bytes32): Header {
    Header(b.config.chainId, b.config.self, tid, 0, 0, 0, Zero, commitment)
  }

  function RequestHeader(b: Book, rid: nat, r: Request, commitment: Bytes32): Header {
    Header(b.config.chainId, b.config.self, r.treasuryId, rid, r.nonce, r.expiresAt, r.memoRef, commitment)
  }

  // ---- Treasuries ----

  function CreateTreasury(b: Book, sender: Address, p: Policy): Outcome {
    if b.paused then Err(ContractPaused)
    else if !ValidPolicy(p) then Err(InvalidPolicy)
    else if b.treasuryCount + 1 >= LIMIT_256 then Err(Panic)
    else if b.config.extensionId == 0 then Err(ExtensionIdUnset)
    else
      var tid, commitment := b.treasuryCount + 1, PolicyCommitment(p);
      Ok(b.(treasuryCount := tid,
            treasuries := b.treasuries[tid := Treasury(sender, "", Zero, p, commitment, Zero, 0, 1, false, false)],
            sent := b.sent + [Instruction(TreasuryHeader(b, tid, commitment), CreateTreasuryKey(p), sender)]))
  }

  function BindTreasuryAddress(b: Book, res: TeeResult): Outcome {
    var body := res.body;
    if CheckTee(b.config, res).Some? then Err(CheckTee(b.config, res).value)
    else if !body.Bind? then Err(MalformedResult)
    else if !BoundHere(b.config, body) then Err(ResultBindingMismatch)
    else if body.treasuryId !in b.treasuries then Err(UnknownTreasury)
    else
      var t := b.treasuries[body.treasuryId];
      if t.bound then Err(TreasuryAlreadyBound)
      else if body.policyCommitment != t.policyCommitment || body.xrplAddress == "" then Err(ResultBindingMismatch)
      else Ok(b.(treasuries := b.treasuries[body.treasuryId := t.(
        xrplAddress := body.xrplAddress, xrplAddressHash := HashText(body.xrplAddress), bound := true)]))
  }

  function RequestPolicyUpdate(b: Book, sender: Address, tid: nat, p: Policy): Outcome {
    if b.paused then Err(ContractPaused)
    else if tid !in b.treasuries then Err(UnknownTreasury)
    else
      var t, commitment := b.treasuries[tid], PolicyCommitment(p);
      if sender != t.owner then Err(NotTreasuryOwner)
      else if !t.bound then Err(TreasuryNotBound)
      else if !ValidPolicy(p) then Err(InvalidPolicy)
      else if p.maxTotalDrops < t.reservedDrops then Err(InvalidPolicy)
      else if b.config.extensionId == 0 then Err(ExtensionIdUnset)
      else Ok(b.(treasuries := b.treasuries[tid := t.(pendingPolicyCommitment := commitment)],
                 sent := b.sent + [Instruction(TreasuryHeader(b, tid, commitment), RegisterPolicy(p), sender)]))
  }

  function ConfirmPolicy(b: Book, res: TeeResult): Outcome {
    var body := res.body;
    if CheckTee(b.config, res).Some? then Err(CheckTee(b.config, res).value)
    else if !body.Confirm? then Err(MalformedResult)
    else if !BoundHere(b.config, body) then Err(ResultBindingMismatch)
    else if body.commitment != PolicyCommitment(body.policy) then Err(ResultBindingMismatch)
    else if body.treasuryId !in b.treasuries then Err(UnknownTreasury)
    else
      var t := b.treasuries[body.treasuryId];
      if t.pendingPolicyCommitment == Zero || body.commitment != t.pendingPolicyCommitment then Err(NoPendingPolicy)
      else Ok(b.(treasuries := b.treasuries[body.treasuryId := t.(
        pendingPolicyCommitment := Zero, policy := body.policy, policyCommitment := body.commitment)]))
  }

  function SetTreasuryPaused(b: Book, sender: Address, tid: nat, paused: bool): Outcome {
    if tid !in b.treasuries then Err(UnknownTreasury)
    else if sender != b.treasuries[tid].owner && sender != b.config.owner then Err(NotTreasuryOwner)
    else Ok(b.(treasuries := b.treasuries[tid := b.treasuries[tid].(paused := paused)]))
  }

  function SetPaused(b: Book, sender: Address, paused: bool): Outcome {
    if sender != b.config.owner then Err(NotOwner) else Ok(b.(paused := paused))
  }

  // ---- Requests ----

  /** Replace one request record and the reserved total of its treasury. */
  function Put(b: Book, rid: nat, r: Request, reserved: nat): Book
    requires r.treasuryId in b.treasuries
  {
    b.(requests := b.requests[rid := r],
       treasuries := b.treasuries[r.treasuryId := b.treasuries[r.treasuryId].(reservedDrops := reserved)])
  }

  function CreatePaymentRequest(b: Book, now: nat, sender: Address, tid: nat, payload: seq<byte>): Outcome {
    if b.paused then Err(ContractPaused)
    else if payload == [] then Err(EmptyPayload)
    else if tid !in b.treasuries then Err(UnknownTreasury)
    else
      var t := b.treasuries[tid];
      if sender != t.owner then Err(NotTreasuryOwner)
      else if !t.bound then Err(TreasuryNotBound)
      else if t.paused then Err(TreasuryPaused)
      else if b.requestCount + 1 >= LIMIT_256 || t.nextNonce + 1 >= LIMIT_64
              || now % LIMIT_64 + t.policy.requestTtlSeconds >= LIMIT_64 then Err(Panic)
      else if b.config.extensionId == 0 then Err(ExtensionIdUnset)
      else
        var rid, created := b.requestCount + 1, now % LIMIT_64;
        var r := Request(tid, sender, t.nextNonce, created, created + t.policy.requestTtlSeconds, HashData(payload),
                         MemoRef(b.config.chainId, b.config.self, tid, rid, t.nextNonce),
                         0, Zero, Zero, Zero, Zero, CREATED);
        Ok(b.(requestCount := rid,
              requests := b.requests[rid := r],
              treasuries := b.treasuries[tid := t.(nextNonce := t.nextNonce + 1)],
              treasuryRequests := b.treasuryRequests[tid := RequestsOf(b, tid) + [rid]],
              sent := b.sent + [Instruction(RequestHeader(b, rid, r, t.policyCommitment), AuthorizePayment(payload), sender)]))
  }

  function SubmitAuthorization(b: Book, now: nat, res: TeeResult): Outcome {
    var body := res.body;
    if CheckTee(b.config, res).Some? then Err(CheckTee(b.config, res).value)
    else if !body.Authorization? then Err(MalformedResult)
    else if !BoundHere(b.config, body) then Err(ResultBindingMismatch)
    else if body.requestId !in b.requests then Err(UnknownRequest)
    else
      var r := b.requests[body.requestId];
      if r.state != CREATED then Err(WrongState)
      else if now > r.expiresAt then Err(RequestExpired)
      else if body.memoRef != r.memoRef || body.payloadHash != r.payloadHash then Err(ResultBindingMismatch)
      else if body.destinationHash == Zero || body.amountDrops == 0 then Err(PolicyViolation)
      else if r.treasuryId !in b.treasuries then Err(PolicyViolation)
      else
        var t := b.treasuries[r.treasuryId];
        if body.amountDrops > t.policy.maxPerPaymentDrops then Err(PolicyViolation)
        else if t.reservedDrops + body.amountDrops >= LIMIT_256 then Err(Panic)
        else if t.reservedDrops + body.amountDrops > t.policy.maxTotalDrops then Err(PolicyViolation)
        else Ok(Put(b, body.requestId,
                    r.(amountDrops := body.amountDrops, destinationHash := body.destinationHash, state := AUTHORIZED),
                    t.reservedDrops + body.amountDrops))
  }

  function RequestSignature(b: Book, now: nat, sender: Address, rid: nat): Outcome {
    if b.paused then Err(ContractPaused)
    else if rid !in b.requests then Err(UnknownRequest)
    else
      var r := b.requests[rid];
      if r.treasuryId !in b.treasuries || sender != b.treasuries[r.treasuryId].owner then Err(NotTreasuryOwner)
      else
        var t := b.treasuries[r.treasuryId];
        if t.paused then Err(TreasuryPaused)
        else if r.state != AUTHORIZED then Err(WrongState)
        else if now > r.expiresAt then Err(RequestExpired)
        else if b.config.extensionId == 0 then Err(ExtensionIdUnset)
        else Ok(b.(sent := b.sent + [Instruction(RequestHeader(b, rid, r, t.policyCommitment), SignXrplPayment, sender)]))
  }

  function SubmitSignedPayment(b: Book, now: nat, res: TeeResult): Outcome {
    var body := res.body;
    if CheckTee(b.config, res).Some? then Err(CheckTee(b.config, res).value)
    else if !body.SignedPayment? then Err(MalformedResult)
    else if !BoundHere(b.config, body) then Err(ResultBindingMismatch)
    else if body.requestId !in b.requests then Err(UnknownRequest)
    else
      var r := b.requests[body.requestId];
      if r.state != AUTHORIZED then Err(WrongState)
      else if now > r.expiresAt then Err(RequestExpired)
      else if body.memoRef != r.memoRef then Err(ResultBindingMismatch)
      else if body.expectedTxId == Zero || body.signedTxBlob == [] then Err(ResultBindingMismatch)
      else Ok(b.(requests := b.requests[body.requestId := r.(
        expectedTxId := body.expectedTxId, signedBlobHash := HashData(body.signedTxBlob), state := SIGNED)]))
  }

  function ReportBroadcast(b: Book, rid: nat, txId: Bytes32): Outcome {
    if rid !in b.requests then Err(UnknownRequest)
    else
      var r := b.requests[rid];
      if r.state != SIGNED then Err(WrongState)
      else if txId != r.expectedTxId then Err(TxIdMismatch)
      else Ok(b.(requests := b.requests[rid := r.(xrplTxId := txId, state := BROADCAST)]))
  }

  function MarkSettled(b: Book, sender: Address, rid: nat, txId: Bytes32): Outcome {
    if sender != b.config.fdcVerifier then Err(NotFdcVerifier)
    else if rid !in b.requests then Err(UnknownRequest)
    else
      var r := b.requests[rid];
      if r.state != SIGNED && r.state != BROADCAST then Err(WrongState)
      else Ok(b.(requests := b.requests[rid := r.(xrplTxId := txId, state := SETTLED)]))
  }

  /** End a request, giving its reservation back when it holds one. */
  function Release(b: Book, rid: nat, final: RequestState): Outcome
    requires rid in b.requests
  {
    var r := b.requests[rid];
    if r.state == CREATED then Ok(b.(requests := b.requests[rid := r.(state := final)]))
    else if r.treasuryId !in b.treasuries || b.treasuries[r.treasuryId].reservedDrops < r.amountDrops then Err(Panic)
    else Ok(Put(b, rid, r.(state := final), b.treasuries[r.treasuryId].reservedDrops - r.amountDrops))
  }

  function CancelRequest(b: Book, sender: Address, rid: nat): Outcome {
    if rid !in b.requests then Err(UnknownRequest)
    else
      var r := b.requests[rid];
      if r.treasuryId !in b.treasuries || sender != b.treasuries[r.treasuryId].owner then Err(NotTreasuryOwner)
      else if r.state != CREATED && r.state != AUTHORIZED then Err(WrongState)
      else Release(b, rid, CANCELLED)
  }

  function ExpireRequest(b: Book, now: nat, rid: nat): Outcome {
    if rid !in b.requests then Err(UnknownRequest)
    else
      var r := b.requests[rid];
      var signed := r.state == SIGNED || r.state == BROADCAST;
      if signed && r.expiresAt + SETTLEMENT_GRACE >= LIMIT_64 then Err(Panic)
      else if !signed && r.state != CREATED && r.state != AUTHORIZED then Err(WrongState)
      else if now <= (if signed then r.expiresAt + SETTLEMENT_GRACE else r.expiresAt) then Err(NotYetExpired)
      else Release(b, rid, EXPIRED)
  }

  function SubmitFailure(b: Book, res: TeeResult): Outcome {
    var body := res.body;
    if b.config.teeAddress == 0 then Err(TeeAddressUnset)
    else if res.status != 0 then Err(TeeReportedFailure)
    else if res.signer != b.config.teeAddress then Err(BadTeeSignature)
    else if !body.Failure? then Err(MalformedResult)
    else if !BoundHere(b.config, body) then Err(ResultBindingMismatch)
    else if body.requestId !in b.requests then Err(UnknownRequest)
    else if b.requests[body.requestId].state != CREATED && b.requests[body.requestId].state != AUTHORIZED then Err(WrongState)
    else Release(b, body.requestId, FAILED)
  }

  // ---- Views ----

  datatype Expectation = Expectation(
    sourceAddressHash: Bytes32, destinationHash: Bytes32, amountDrops: nat, expectedMemo: seq<byte>, state: RequestState)

  function SettlementExpectation(b: Book, word: Bytes32 -> Word32, rid: nat): Result<Expectation, Error> {
    if rid !in b.requests then Err(UnknownRequest)
    else
      var r := b.requests[rid];
      Ok(Expectation(if r.treasuryId in b.treasuries then b.treasuries[r.treasuryId].xrplAddressHash else Zero,
                     r.destinationHash, r.amountDrops, EncodeMemo(word, r.memoRef), r.state))
  }

  function AvailableDrops(b: Book, tid: nat): Result<nat, Error> {
    if tid !in b.treasuries then Err(UnknownTreasury)
    else if b.treasuries[tid].policy.maxTotalDrops < b.treasuries[tid].reservedDrops then Err(Panic)
    else Ok(b.treasuries[tid].policy.maxTotalDrops - b.treasuries[tid].reservedDrops)
  }

  // ---- Calls ----

  datatype Call =
    | CallCreateTreasury(sender: Address, policy: Policy)
    | CallBind(res: TeeResult)
    | CallRequestPolicyUpdate(sender: Address, tid: nat, policy: Policy)
    | CallConfirmPolicy(res: TeeResult)
    | CallSetTreasuryPaused(sender: Address, tid: nat, flag: bool)
    | CallSetPaused(sender: Address, flag: bool)
    | CallCreatePaymentRequest(sender: Address, tid: nat, payload: seq<byte>)
    | CallSubmitAuthorization(res: TeeResult)
    | CallRequestSignature(sender: Address, rid: nat)
    | CallSubmitSignedPayment(res: TeeResult)
    | CallReportBroadcast(rid: nat, txId: Bytes32)
    | CallMarkSettled(sender: Address, rid: nat, txId: Bytes32)
    | CallCancelRequest(sender: Address, rid: nat)
    | CallExpireRequest(rid: nat)
    | CallSubmitFailure(res: TeeResult)

  function Perform(b: Book, now: nat, c: Call): Outcome {
    match c
    case CallCreateTreasury(sender, p) => CreateTreasury(b, sender, p)
    case CallBind(res) => BindTreasuryAddress(b, res)
    case CallRequestPolicyUpdate(sender, tid, p) => RequestPolicyUpdate(b, sender, tid, p)
    case CallConfirmPolicy(res) => ConfirmPolicy(b, res)
    case CallSetTreasuryPaused(sender, tid, flag) => SetTreasuryPaused(b, sender, tid, flag)
    case CallSetPaused(sender, flag) => SetPaused(b, sender, flag)
    case CallCreatePaymentRequest(sender, tid, payload) => CreatePaymentRequest(b, now, sender, tid, payload)
    case CallSubmitAuthorization(res) => SubmitAuthorization(b, now, res)
    case CallRequestSignature(sender, rid) => RequestSignature(b, now, sender, rid)
    case CallSubmitSignedPayment(res) => SubmitSignedPayment(b, now, res)
    case CallReportBroadcast(rid, txId) => ReportBroadcast(b, rid, txId)
    case CallMarkSettled(sender, rid, txId) => MarkSettled(b, sender, rid, txId)
    case CallCancelRequest(sender, rid) => CancelRequest(b, sender, rid)
    case CallExpireRequest(rid) => ExpireRequest(b, now, rid)
    case CallSubmitFailure(res) => SubmitFailure(b, res)
  }

  /** A revert leaves storage as it was. */
  function After(b: Book, now: nat, c: Call): Book {
    var outcome := Perform(b, now, c);
    if outcome.Ok? then outcome.value else b
  }
}
