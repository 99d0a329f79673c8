/** When each handler of the enclave succeeds, which error it answers otherwise, and what it leaves
    behind: the checks of extension/go/internal/extension/extension.go in order, with every constant
    written out. */
module EnclaveRules {
  import opened Wrappers
  import opened Guards
  import opened Bytes
  import opened Protocol
  import opened Base58
  import opened ClassicAddress
  import opened XrplFields
  import opened Payments
  import opened PaymentRoundTrip
  import opened EnclaveState
  import opened EnclaveRuns

  type Rules = seq<Guard<EnclaveError>>

  /** The instruction names a contract and carries the policy it commits to. */
  function PolicyHeaderRules(h: Header, p: Policy): Rules {
    [Guard(h.controller != 0, NoController),
     Guard(h.policyCommitment == Keccak(PolicyEncoding(p)), CommitmentMismatch)]
  }

  function KeyRules(v: Vault, h: Header, p: Policy, key: Option<SigningKey>): Rules {
    PolicyHeaderRules(h, p) + [Guard(h.treasuryId !in v.treasuries, AlreadyHasKey), Guard(key.Some?, KeyGenerationFailed)]
  }

  function PolicyRules(v: Vault, h: Header, p: Policy): Rules {
    PolicyHeaderRules(h, p) + [Guard(h.treasuryId in v.treasuries, EnclaveError.UnknownTreasury)]
  }

  /** Before anything is decrypted, and that something is. */
  function SealedRules(crypto: Crypto, v: Vault, h: Header, ciphertext: seq<byte>, nodeUp: bool): Rules {
    [Guard(|ciphertext| > 0, EnclaveError.EmptyPayload),
     Guard(h.treasuryId in v.treasuries, EnclaveError.UnknownTreasury),
     Guard(h.treasuryId in v.treasuries && h.policyCommitment == v.treasuries[h.treasuryId].policyCommitment, CommitmentMismatch),
     Guard(nodeUp && crypto.decrypt(ciphertext).Some?, DecryptFailed)]
  }

  /** What the payload says: this request and no other, a real address that is not the treasury's own, and
      a positive amount within 64 bits and within both caps of the policy held. */
  function PayloadRules(crypto: Crypto, t: Treasury, h: Header, pi: PaymentInstruction): Rules {
    var account := DecodeAddress(crypto.checksum, pi.destination);
    [Guard(pi.chainId == h.chainId, ForeignChain),
     Guard(pi.controller == h.controller, ForeignController),
     Guard(pi.treasuryId == h.treasuryId, ForeignTreasury),
     Guard(pi.requestId == h.requestId, ForeignRequest),
     Guard(account.Ok?, BadDestination(if account.Err? then account.error else InvalidAddress)),
     Guard(pi.destination != t.address, DestinationIsTreasury),
     Guard(pi.amountDrops < 0x1_0000_0000_0000_0000, AmountTooWide),
     Guard(pi.amountDrops > 0, AmountNotPositive),
     Guard(t.policy.maxPerPaymentDrops > 0, NoPaymentCap),
     Guard(pi.amountDrops <= t.policy.maxPerPaymentDrops, OverPaymentCap),
     Guard(pi.amountDrops <= t.policy.maxTotalDrops, OverTotalCap)]
  }

  function GrantRules(crypto: Crypto, v: Vault, h: Header, ciphertext: seq<byte>, nodeUp: bool): Rules {
    var before := SealedRules(crypto, v, h, ciphertext, nodeUp);
    if h.treasuryId in v.treasuries && crypto.decrypt(ciphertext).Some? then
      before + PayloadRules(crypto, v.treasuries[h.treasuryId], h, crypto.decrypt(ciphertext).value)
    else before
  }

  /** The grant in hand is this request's, and its treasury has a key. */
  function JobRules(v: Vault, h: Header): Rules {
    var held := h.requestId in v.authorizations;
    [Guard(held, NeverAuthorized),
     Guard(held && v.authorizations[h.requestId].treasuryId in v.treasuries, NoKey),
     Guard(held && v.authorizations[h.requestId].memoRef == h.memoRef, EnclaveError.MemoMismatch),
     Guard(held && v.authorizations[h.requestId].treasuryId == h.treasuryId, TreasuryMismatch)]
  }

  /** The ledger was read and the payment can be expressed: at most 10^17 drops, a ledger bound that is
      not zero. */
  function SigningRules(crypto: Crypto, job: Job, input: Input): Rules {
    var account := DecodeAddress(crypto.checksum, job.auth.destination);
    [Guard(account.Ok?, BadDestination(if account.Err? then account.error else InvalidAddress)),
     Guard(input.sequence.Some?, SequenceUnread),
     Guard(input.ledger.Some?, LedgerUnread),
     Guard(job.auth.amountDrops > 0, SignFailed(AmountZero)),
     Guard(job.auth.amountDrops <= 100_000_000_000_000_000, SignFailed(AmountTooLarge)),
     Guard(input.ledger.Some? && LastLedger(input.ledger.value, job.auth.expiresAt, input.now) != 0, SignFailed(NoLastLedger))]
  }

  // ---- The tables decide ----

  predicate DecidedBy(reply: Reply, failure: Option<EnclaveError>) {
    match reply
    case Ok(_) => failure == None
    case Err(e) => failure == Some(e)
  }

  lemma KeyDecided(crypto: Crypto, v: Vault, h: Header, p: Policy, key: Option<SigningKey>)
    ensures DecidedBy(HandleCreateTreasuryKey(crypto, v, h, p, key).reply, Verdict(KeyRules(v, h, p, key)))
  {
    hide EncodeAddress, DecodeAddress;
    Unfold(KeyRules(v, h, p, key));
  }

  lemma PolicyDecided(v: Vault, h: Header, p: Policy)
    ensures DecidedBy(HandleRegisterPolicy(v, h, p).reply, Verdict(PolicyRules(v, h, p)))
  {
    Unfold(PolicyRules(v, h, p));
  }

  lemma PayloadDecided(crypto: Crypto, t: Treasury, h: Header, pi: PaymentInstruction)
    ensures RefusePayment(crypto, t, h, pi) == Verdict(PayloadRules(crypto, t, h, pi))
  {
    hide DecodeAddress;
    Unfold(PayloadRules(crypto, t, h, pi));
  }

  lemma GrantDecided(crypto: Crypto, v: Vault, h: Header, ciphertext: seq<byte>, nodeUp: bool)
    ensures DecidedBy(HandleAuthorizePayment(crypto, v, h, ciphertext, nodeUp).reply,
                      Verdict(GrantRules(crypto, v, h, ciphertext, nodeUp)))
  {
    hide RefusePayment, PayloadRules;
    Unfold(SealedRules(crypto, v, h, ciphertext, nodeUp));
    if h.treasuryId in v.treasuries && crypto.decrypt(ciphertext).Some? {
      var t, pi := v.treasuries[h.treasuryId], crypto.decrypt(ciphertext).value;
      PayloadDecided(crypto, t, h, pi);
      Concat(SealedRules(crypto, v, h, ciphertext, nodeUp), PayloadRules(crypto, t, h, pi), 0);
    }
  }

  lemma JobDecided(v: Vault, h: Header)
    ensures match BeginSign(v, h)
            case Ok(_) => Verdict(JobRules(v, h)) == None
            case Err(e) => Verdict(JobRules(v, h)) == Some(e)
  {
    Unfold(JobRules(v, h));
  }

  /** The checks of the payment itself that can fail for an enclave payment. */
  lemma PaymentChecked(crypto: Crypto, job: Job, destination: seq<byte>, sequence: uint32, ledger: uint32, now: int)
    requires |destination| == 20
    ensures
      var p := PaymentFor(crypto, job, destination, sequence, ledger, now);
      Validate(p) == if p.amountDrops == 0 then Some(AmountZero)
                     else if p.amountDrops > 100_000_000_000_000_000 then Some(AmountTooLarge)
                     else if p.lastLedgerSequence == 0 then Some(NoLastLedger) else None
  {
    hide LastLedger;
  }

  lemma SigningDecided(crypto: Crypto, job: Job, input: Input)
    ensures match SignJob(crypto, job, input)
            case Ok(_) => Verdict(SigningRules(crypto, job, input)) == None
            case Err(e) => Verdict(SigningRules(crypto, job, input)) == Some(e)
  {
    hide DecodeAddress, LastLedger, Validate, Serialized;
    var account := DecodeAddress(crypto.checksum, job.auth.destination);
    if account.Ok? && input.sequence.Some? && input.ledger.Some? {
      var p := PaymentFor(crypto, job, account.value, input.sequence.value, input.ledger.value, input.now);
      PaymentChecked(crypto, job, account.value, input.sequence.value, input.ledger.value, input.now);
      assert p.(signingPubKey := job.treasury.key.publicKey) == p;
    }
    Unfold(SigningRules(crypto, job, input));
  }

  function RulesOf(crypto: Crypto, v: Vault, i: Instruction, input: Input): Rules {
    match i.command
    case CreateTreasuryKey(p) => KeyRules(v, i.header, p, input.key)
    case RegisterPolicy(p) => PolicyRules(v, i.header, p)
    case AuthorizePayment(ciphertext) => GrantRules(crypto, v, i.header, ciphertext, input.nodeUp)
    case SignXrplPayment =>
      if BeginSign(v, i.header).Err? then JobRules(v, i.header)
      else JobRules(v, i.header) + SigningRules(crypto, BeginSign(v, i.header).value, input)
  }

  /** Every handler, in any state, for any instruction and any answers from outside: it succeeds exactly
      when every check holds, and otherwise answers the error of the first that does not. */
  lemma RulesDecide(crypto: Crypto, v: Vault, i: Instruction, input: Input)
    ensures DecidedBy(Handle(crypto, v, i, input).reply, Verdict(RulesOf(crypto, v, i, input)))
  {
    hide HandleCreateTreasuryKey, HandleRegisterPolicy, HandleAuthorizePayment, SignJob, BeginSign, KeyRules, PolicyRules,
         GrantRules, JobRules, SigningRules;
    match i.command
    case CreateTreasuryKey(p) => KeyDecided(crypto, v, i.header, p, input.key);
    case RegisterPolicy(p) => PolicyDecided(v, i.header, p);
    case AuthorizePayment(ciphertext) => GrantDecided(crypto, v, i.header, ciphertext, input.nodeUp);
    case SignXrplPayment =>
      JobDecided(v, i.header);
      if BeginSign(v, i.header).Ok? {
        var job := BeginSign(v, i.header).value;
        SigningDecided(crypto, job, input);
        Concat(JobRules(v, i.header), SigningRules(crypto, job, input), 0);
      }
  }

  // ---- What a success leaves ----

  /** A key is created under the policy sent, with the address of its account, and everything else stays. */
  lemma KeyCreated(crypto: Crypto, v: Vault, h: Header, p: Policy, key: Option<SigningKey>)
    requires HandleCreateTreasuryKey(crypto, v, h, p, key).reply.Ok?
    ensures
      var v' := HandleCreateTreasuryKey(crypto, v, h, p, key).vault;
      && v'.authorizations == v.authorizations && h.treasuryId in v'.treasuries
      && v'.treasuries == v.treasuries[h.treasuryId := v'.treasuries[h.treasuryId]]
      && var t := v'.treasuries[h.treasuryId];
         && key == Some(t.key) && t.accountId == crypto.accountIdOf(t.key.publicKey)
         && DecodeAddress(crypto.checksum, t.address) == Ok(t.accountId)
         && t.policy == p && t.policyCommitment == Keccak(PolicyEncoding(p))
         && HandleCreateTreasuryKey(crypto, v, h, p, key).reply
            == Ok(Bind(h.chainId, h.controller, h.treasuryId, t.address, Keccak(PolicyEncoding(p))))
  {
    hide EncodeAddress, DecodeAddress;
    AddressExists(crypto, key.value);
    DecodesItsEncoding(crypto.checksum, crypto.accountIdOf(key.value.publicKey));
  }

  /** The policy sent replaces the one held; key, account and address stay, and so does everything else. */
  lemma PolicyReplaced(v: Vault, h: Header, p: Policy)
    requires HandleRegisterPolicy(v, h, p).reply.Ok?
    ensures
      var v' := HandleRegisterPolicy(v, h, p).vault;
      && v'.authorizations == v.authorizations && h.treasuryId in v.treasuries && h.treasuryId in v'.treasuries
      && v'.treasuries == v.treasuries[h.treasuryId := v'.treasuries[h.treasuryId]]
      && var t, t' := v.treasuries[h.treasuryId], v'.treasuries[h.treasuryId];
         && SameKey(t, t') && t'.policy == p && t'.policyCommitment == Keccak(PolicyEncoding(p))
         && HandleRegisterPolicy(v, h, p).reply
            == Ok(Confirm(h.chainId, h.controller, h.treasuryId, p, Keccak(PolicyEncoding(p))))
  {
  }

  /** A grant: one authorization is stored, with the payload's terms under the header's reference and
      deadline, and the reply reveals its amount and the hash of its destination. The payload named exactly
      this request; its amount is positive and within both caps; its destination is not the treasury. */
  lemma Granted(crypto: Crypto, v: Vault, h: Header, ciphertext: seq<byte>, nodeUp: bool)
    requires HandleAuthorizePayment(crypto, v, h, ciphertext, nodeUp).reply.Ok?
    ensures h.treasuryId in v.treasuries && crypto.decrypt(ciphertext).Some?
    ensures
      var handled := HandleAuthorizePayment(crypto, v, h, ciphertext, nodeUp);
      var v', pi, t := handled.vault, crypto.decrypt(ciphertext).value, v.treasuries[h.treasuryId];
      && v'.treasuries == v.treasuries && h.requestId in v'.authorizations
      && v'.authorizations == v.authorizations[h.requestId := v'.authorizations[h.requestId]]
      && pi.chainId == h.chainId && pi.controller == h.controller && pi.treasuryId == h.treasuryId && pi.requestId == h.requestId
      && 0 < pi.amountDrops <= t.policy.maxPerPaymentDrops && pi.amountDrops <= t.policy.maxTotalDrops
      && pi.destination != t.address && h.policyCommitment == t.policyCommitment
      && var auth := v'.authorizations[h.requestId];
         && auth.treasuryId == h.treasuryId && auth.memoRef == h.memoRef && auth.expiresAt == h.expiresAt
         && auth.payloadHash == Keccak(Data(ciphertext))
         && auth.destination == pi.destination && auth.amountDrops == pi.amountDrops
         && auth.tag == pi.destinationTag && auth.hasTag == pi.hasDestinationTag
         && handled.reply == Ok(Authorization(h.chainId, h.controller, h.requestId, h.memoRef, pi.amountDrops,
                                              Keccak(Text(pi.destination)), Keccak(Data(ciphertext))))
  {
    hide DecodeAddress;
  }

  // ---- The ledger bound ----

  /** The conversion to 64 signed bits keeps the value modulo 2^64. */
  lemma WrapsTo64(n: int)
    ensures -0x8000_0000_0000_0000 <= Int64(n) < 0x8000_0000_0000_0000 && (n - Int64(n)) % 0x1_0000_0000_0000_0000 == 0
  {
  }

  /** `left` is the time left as 64 signed bits hold it. */
  predicate LeftIs(expiresAt: uint64, now: int, left: int) {
    && -0x8000_0000_0000_0000 <= left < 0x8000_0000_0000_0000
    && (expiresAt - now - left) % 0x1_0000_0000_0000_0000 == 0
  }

  /** The window is the largest number of ledgers, at most 750, that fits the time left at four seconds a
      ledger, but never fewer than 10. */
  lemma WindowExactly(expiresAt: uint64, now: int, left: int)
    requires LeftIs(expiresAt, now, left)
    ensures
      var w := LedgerWindow(expiresAt, now);
      10 <= w <= 750 && (w > 10 ==> 4 * w <= left) && (w < 750 ==> left < 4 * (w + 1))
  {
    SameLeft(expiresAt, now, left);
  }

  lemma SameLeft(expiresAt: uint64, now: int, left: int)
    requires LeftIs(expiresAt, now, left)
    ensures Int64(Int64(expiresAt) - now) == left
  {
    hide Int64;
    WrapsTo64(expiresAt);
    WrapsTo64(Int64(expiresAt) - now);
    SameResidue(expiresAt - now, left, Int64(Int64(expiresAt) - now), expiresAt - Int64(expiresAt));
  }

  lemma SameResidue(n: int, a: int, b: int, turns: int)
    requires (n - a) % 0x1_0000_0000_0000_0000 == 0 && turns % 0x1_0000_0000_0000_0000 == 0
    requires (n - turns - b) % 0x1_0000_0000_0000_0000 == 0
    requires -0x8000_0000_0000_0000 <= a < 0x8000_0000_0000_0000 && -0x8000_0000_0000_0000 <= b < 0x8000_0000_0000_0000
    ensures a == b
  {
    var m := 0x1_0000_0000_0000_0000;
    var x, y, z := (n - a) / m, turns / m, (n - turns - b) / m;
    assert a - b == m * (y + z - x);
  }

  /** The bound is that many ledgers past the validated one, in 32 bits. */
  lemma LastLedgerExactly(ledger: uint32, expiresAt: uint64, now: int)
    ensures
      var last, end := LastLedger(ledger, expiresAt, now), ledger + LedgerWindow(expiresAt, now);
      last == end || (end >= 0x1_0000_0000 && last == end - 0x1_0000_0000)
  {
  }

  // ---- What is signed ----

  /** A signature that succeeds consumes this request's authorization and no other. The blob is a payment of
      the authorized amount from the key's account to the authorized destination, with its tag, at the
      sequence read, for 12 drops, bounded by the window from the ledger read, with the memo "BSF1" and the
      reference, under the treasury's public key; its signature is the key's over "STX\0" and the blob
      without it, and its id is the hash of "TXN\0" and the blob. */
  ghost predicate Pays(crypto: Crypto, job: Job, input: Input, signed: Signed) {
    && input.sequence.Some? && input.ledger.Some? && ReadBlobAsPayment(signed.txBlob).Some?
    && signed.txId == Sha512Half([0x54, 0x58, 0x4E, 0x00] + signed.txBlob)
    && var p, auth, key := ReadBlobAsPayment(signed.txBlob).value.payment, job.auth, job.treasury.key;
       && p.account == job.treasury.accountId && DecodeAddress(crypto.checksum, auth.destination) == Ok(p.destination)
       && p.amountDrops == auth.amountDrops && p.feeDrops == 12 && p.sequence == input.sequence.value
       && p.lastLedgerSequence == LastLedger(input.ledger.value, auth.expiresAt, input.now)
       && p.hasDestinationTag == auth.hasTag && (auth.hasTag ==> p.destinationTag == auth.tag)
       && p.memo == [0x42, 0x53, 0x46, 0x31] + crypto.word(auth.memoRef) && p.signingPubKey == key.publicKey
       && Serialized(p, None).Ok? && Serialized(p, Some(signed.signature)) == Ok(signed.txBlob)
       && signed.signature == crypto.ecdsa(key, [0x53, 0x54, 0x58, 0x00] + Serialized(p, None).value)
  }

  lemma SignedExactly(crypto: Crypto, job: Job, input: Input)
    requires SignJob(crypto, job, input).Ok?
    ensures Pays(crypto, job, input, SignJob(crypto, job, input).value)
  {
    hide ReadBlobAsPayment, LastLedger, DecodeAddress, FieldsOf, Validate, ReadPayment, Exact;
    var p := PaymentFor(crypto, job, DecodeAddress(crypto.checksum, job.auth.destination).value,
                        input.sequence.value, input.ledger.value, input.now);
    SignedOf(p, job.treasury.key, crypto.ecdsa);
    NormalSerialized(p, None);
    NormalSerialized(p, Some(SignJob(crypto, job, input).value.signature));
  }

  /** A tag that is not sent does not matter. */
  lemma NormalSerialized(p: PaymentData, signature: Option<seq<byte>>)
    ensures Serialized(Normal(p), signature) == Serialized(p, signature)
  {
    assert Validate(Normal(p)) == Validate(p);
    if Serialized(p, signature).Ok? {
      assert FieldsOf(Normal(p), signature) == FieldsOf(p, signature);
    }
  }

  /** What is signed is what was granted for this request, with its treasury's key. */
  lemma JobHolds(v: Vault, h: Header)
    requires BeginSign(v, h).Ok?
    ensures h.requestId in v.authorizations && h.treasuryId in v.treasuries
    ensures BeginSign(v, h).value == Job(h, v.authorizations[h.requestId], v.treasuries[h.treasuryId])
  {
  }

  /** Signing consumes this request's authorization and nothing else. */
  lemma SigningConsumes(crypto: Crypto, v: Vault, job: Job, input: Input)
    requires FinishSign(crypto, v, job, input).reply.Ok?
    ensures
      var handled, h := FinishSign(crypto, v, job, input), job.header;
      && handled.vault.treasuries == v.treasuries && h.requestId !in handled.vault.authorizations
      && (forall rid :: rid != h.requestId ==> (rid in handled.vault.authorizations <==> rid in v.authorizations))
      && (forall rid :: rid in handled.vault.authorizations ==> handled.vault.authorizations[rid] == v.authorizations[rid])
      && SignJob(crypto, job, input).Ok? && var signed := SignJob(crypto, job, input).value;
         handled.reply == Ok(SignedPayment(h.chainId, h.controller, h.requestId, h.memoRef, signed.txId, signed.txBlob))
  {
    hide SignJob;
  }
}
