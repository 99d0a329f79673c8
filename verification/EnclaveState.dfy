/** The enclave's two maps and its four handlers as functions from state and input to new state and
    reply (extension/go/internal/extension/extension.go). */
module EnclaveState {
  import opened Wrappers
  import opened Bytes
  import opened Protocol
  import opened Base58
  import opened ClassicAddress
  import opened XrplFields
  import opened Payments

  const DEFAULT_FEE_DROPS: uint64 := 12
  const SECONDS_PER_LEDGER: nat := 4
  const MIN_LEDGER_WINDOW: uint32 := 10
  const MAX_LEDGER_WINDOW: uint32 := 750

  type AccountId = s: seq<byte> | |s| == 20 witness seq(20, _ => 0)

  /** The decrypted payment payload. */
  datatype PaymentInstruction = PaymentInstruction(
    chainId: nat, controller: Address, treasuryId: nat, requestId: nat,
    destination: string, amountDrops: nat, destinationTag: uint32, hasDestinationTag: bool)

  /** The enclave's cryptography, as functions: the base58 checksum, account ids of public keys,
      signing, what a ciphertext decrypts and decodes to, and which 32 bytes a digest is. */
  datatype Crypto = Crypto(
    checksum: Checksum, accountIdOf: PublicKey -> AccountId, ecdsa: Ecdsa,
    decrypt: seq<byte> -> Option<PaymentInstruction>, word: Bytes32 -> Word32)

  datatype Treasury = Treasury(key: SigningKey, accountId: AccountId, address: string, policy: Policy, policyCommitment: Bytes32)

  datatype StoredAuthorization = StoredAuthorization(
    treasuryId: nat, destination: string, amountDrops: uint64, tag: uint32, hasTag: bool,
    memoRef: Bytes32, expiresAt: uint64, payloadHash: Bytes32)

  datatype Vault = Vault(treasuries: map<nat, Treasury>, authorizations: map<nat, StoredAuthorization>)

  datatype EnclaveError =
    | NoController | CommitmentMismatch | AlreadyHasKey | KeyGenerationFailed | UnknownTreasury
    | EmptyPayload | DecryptFailed | ForeignChain | ForeignController | ForeignTreasury | ForeignRequest
    | BadDestination(address: AddressError) | DestinationIsTreasury | AmountTooWide
    | AmountNotPositive | NoPaymentCap | OverPaymentCap | OverTotalCap
    | NeverAuthorized | NoKey | MemoMismatch | TreasuryMismatch
    | SequenceUnread | LedgerUnread | SignFailed(xrpl: XrplError)

  type Reply = Result<ResultBody, EnclaveError>

  datatype Handled = Handled(vault: Vault, reply: Reply)

  /** What the outside world answers while one instruction is handled: fresh key material, whether
      the node decrypts, the account sequence and validated ledger read, and the clock. */
  datatype Input = Input(key: Option<SigningKey>, nodeUp: bool, sequence: Option<uint32>, ledger: Option<uint32>, now: int)

  // ---- Checks ----

  function ValidateHeaderCommitment(h: Header, p: Policy): Option<EnclaveError> {
    if h.controller == 0 then Some(NoController)
    else if PolicyCommitment(p) != h.policyCommitment then Some(CommitmentMismatch)
    else None
  }

  function CheckPolicy(p: Policy, amount: nat): Option<EnclaveError> {
    if amount == 0 then Some(AmountNotPositive)
    else if p.maxPerPaymentDrops == 0 then Some(NoPaymentCap)
    else if amount > p.maxPerPaymentDrops then Some(OverPaymentCap)
    else if amount > p.maxTotalDrops then Some(OverTotalCap)
    else None
  }

  function BindPayloadToHeader(pi: PaymentInstruction, h: Header): Option<EnclaveError> {
    if pi.chainId != h.chainId then Some(ForeignChain)
    else if pi.controller != h.controller then Some(ForeignController)
    else if pi.treasuryId != h.treasuryId then Some(ForeignTreasury)
    else if pi.requestId != h.requestId then Some(ForeignRequest)
    else None
  }

  // ---- The ledger bound ----

  /** Go's conversion to int64, and the result of int64 arithmetic. */
  function Int64(n: int): int {
    var low := n % 0x1_0000_0000_0000_0000;
    if low < 0x8000_0000_0000_0000 then low else low - 0x1_0000_0000_0000_0000
  }

  /** A quarter of the seconds left, within 10 and 750. */
  function LedgerWindow(expiresAt: uint64, now: int): (window: uint32)
    ensures MIN_LEDGER_WINDOW <= window <= MAX_LEDGER_WINDOW
  {
    var remaining := Int64(Int64(expiresAt) - now);
    if remaining <= SECONDS_PER_LEDGER * MIN_LEDGER_WINDOW then MIN_LEDGER_WINDOW
    else if remaining >= SECONDS_PER_LEDGER * MAX_LEDGER_WINDOW then MAX_LEDGER_WINDOW
    else remaining / SECONDS_PER_LEDGER
  }

  function LastLedger(currentLedger: uint32, expiresAt: uint64, now: int): uint32 {
    (currentLedger + LedgerWindow(expiresAt, now)) % 0x1_0000_0000
  }

  // ---- Handlers ----

  function HandleCreateTreasuryKey(crypto: Crypto, v: Vault, h: Header, p: Policy, key: Option<SigningKey>): Handled {
    if ValidateHeaderCommitment(h, p).Some? then Handled(v, Err(ValidateHeaderCommitment(h, p).value))
    else if h.treasuryId in v.treasuries then Handled(v, Err(AlreadyHasKey))
    else if key.None? then Handled(v, Err(KeyGenerationFailed))
    else
      var accountId := crypto.accountIdOf(key.value.publicKey);
      var address := EncodeAddress(crypto.checksum, accountId).value;
      Handled(v.(treasuries := v.treasuries[h.treasuryId := Treasury(key.value, accountId, address, p, h.policyCommitment)]),
              Ok(Bind(h.chainId, h.controller, h.treasuryId, address, h.policyCommitment)))
  }

  function HandleRegisterPolicy(v: Vault, h: Header, p: Policy): Handled {
    if ValidateHeaderCommitment(h, p).Some? then Handled(v, Err(ValidateHeaderCommitment(h, p).value))
    else if h.treasuryId !in v.treasuries then Handled(v, Err(UnknownTreasury))
    else
      var t := v.treasuries[h.treasuryId].(policy := p, policyCommitment := h.policyCommitment);
      Handled(v.(treasuries := v.treasuries[h.treasuryId := t]),
              Ok(Confirm(h.chainId, h.controller, h.treasuryId, p, h.policyCommitment)))
  }

  /** The first reason to refuse a decrypted instruction. */
  function RefusePayment(crypto: Crypto, t: Treasury, h: Header, pi: PaymentInstruction): Option<EnclaveError> {
    if BindPayloadToHeader(pi, h).Some? then BindPayloadToHeader(pi, h)
    else if DecodeAddress(crypto.checksum, pi.destination).Err? then
      Some(BadDestination(DecodeAddress(crypto.checksum, pi.destination).error))
    else if pi.destination == t.address then Some(DestinationIsTreasury)
    else if pi.amountDrops >= 0x1_0000_0000_0000_0000 then Some(AmountTooWide)
    else CheckPolicy(t.policy, pi.amountDrops)
  }

  function HandleAuthorizePayment(crypto: Crypto, v: Vault, h: Header, ciphertext: seq<byte>, nodeUp: bool): Handled {
    if ciphertext == [] then Handled(v, Err(EmptyPayload))
    else if h.treasuryId !in v.treasuries then Handled(v, Err(UnknownTreasury))
    else
      var t := v.treasuries[h.treasuryId];
      if h.policyCommitment != t.policyCommitment then Handled(v, Err(CommitmentMismatch))
      else if !nodeUp || crypto.decrypt(ciphertext).None? then Handled(v, Err(DecryptFailed))
      else
        var pi := crypto.decrypt(ciphertext).value;
        var refusal := RefusePayment(crypto, t, h, pi);
        if refusal.Some? then Handled(v, Err(refusal.value))
        else
          var auth := StoredAuthorization(h.treasuryId, pi.destination, pi.amountDrops, pi.destinationTag, pi.hasDestinationTag,
                                    h.memoRef, h.expiresAt, HashData(ciphertext));
          Handled(v.(authorizations := v.authorizations[h.requestId := auth]),
                  Ok(Authorization(h.chainId, h.controller, h.requestId, h.memoRef, pi.amountDrops,
                                              HashText(pi.destination), HashData(ciphertext))))
  }

  /** What the signing handler holds between its two locked sections. */
  datatype Job = Job(header: Header, auth: StoredAuthorization, treasury: Treasury)

  /** The first locked section and the checks on what it read. */
  function BeginSign(v: Vault, h: Header): Result<Job, EnclaveError> {
    if h.requestId !in v.authorizations then Err(NeverAuthorized)
    else
      var auth := v.authorizations[h.requestId];
      if auth.treasuryId !in v.treasuries then Err(NoKey)
      else if auth.memoRef != h.memoRef then Err(MemoMismatch)
      else if h.treasuryId != auth.treasuryId then Err(TreasuryMismatch)
      else Ok(Job(h, auth, v.treasuries[auth.treasuryId]))
  }

  /** The Payment a job signs, once the ledger has been read. */
  function PaymentFor(crypto: Crypto, job: Job, destination: seq<byte>, sequence: uint32, ledger: uint32, now: int): PaymentData {
    PaymentData(job.treasury.accountId, destination, job.auth.amountDrops, DEFAULT_FEE_DROPS, sequence,
                LastLedger(ledger, job.auth.expiresAt, now), job.auth.tag, job.auth.hasTag,
                EncodeMemo(crypto.word, job.auth.memoRef), job.treasury.key.publicKey)
  }

  ghost function SignJob(crypto: Crypto, job: Job, input: Input): Result<Signed, EnclaveError> {
    var destination := DecodeAddress(crypto.checksum, job.auth.destination);
    if destination.Err? then Err(BadDestination(destination.error))
    else if input.sequence.None? then Err(SequenceUnread)
    else if input.ledger.None? then Err(LedgerUnread)
    else
      var p := PaymentFor(crypto, job, destination.value, input.sequence.value, input.ledger.value, input.now);
      var signed := SignedPaymentOf(p, Some(job.treasury.key), crypto.ecdsa);
      if signed.Err? then Err(SignFailed(signed.error)) else Ok(signed.value)
  }

  /** The rest of the handler: sign, then consume the authorization. */
  ghost function FinishSign(crypto: Crypto, v: Vault, job: Job, input: Input): Handled {
    var signed := SignJob(crypto, job, input);
    if signed.Err? then Handled(v, Err(signed.error))
    else
      var h := job.header;
      Handled(v.(authorizations := v.authorizations - {h.requestId}),
              Ok(SignedPayment(h.chainId, h.controller, h.requestId, h.memoRef, signed.value.txId, signed.value.txBlob)))
  }

  ghost function HandleSignPayment(crypto: Crypto, v: Vault, h: Header, input: Input): Handled {
    var job := BeginSign(v, h);
    if job.Err? then Handled(v, Err(job.error)) else FinishSign(crypto, v, job.value, input)
  }

  ghost function Handle(crypto: Crypto, v: Vault, i: Instruction, input: Input): Handled {
    match i.command
    case CreateTreasuryKey(p) => HandleCreateTreasuryKey(crypto, v, i.header, p, input.key)
    case RegisterPolicy(p) => HandleRegisterPolicy(v, i.header, p)
    case AuthorizePayment(ciphertext) => HandleAuthorizePayment(crypto, v, i.header, ciphertext, input.nodeUp)
    case SignXrplPayment => HandleSignPayment(crypto, v, i.header, input)
  }
}
