/** The extension as the object it is: two maps its handlers insert into, update and delete from.
    Each handler runs under its locks as one step here. */
module Enclaves {
  import opened Wrappers
  import opened Bytes
  import opened Protocol
  import opened ClassicAddress
  import opened Payments
  import opened EnclaveState

  class Extension {
    const crypto: Crypto
    var treasuries: map<nat, Treasury>
    var authorizations: map<nat, StoredAuthorization>

    function State(): Vault
      reads this
    {
      Vault(treasuries, authorizations)
    }

    constructor (crypto: Crypto)
      ensures this.crypto == crypto && State() == Vault(map[], map[])
    {
      this.crypto := crypto;
      treasuries, authorizations := map[], map[];
    }

    method CreateTreasuryKey(h: Header, policy: Policy, key: Option<SigningKey>) returns (reply: Reply)
      modifies this
      ensures Handled(State(), reply) == HandleCreateTreasuryKey(crypto, old(State()), h, policy, key)
    {
      var invalid := ValidateHeaderCommitment(h, policy);
      if invalid.Some? {
        return Err(invalid.value);
      }
      if h.treasuryId in treasuries {
        return Err(AlreadyHasKey);
      }
      if key.None? {
        return Err(KeyGenerationFailed);
      }
      var accountId := crypto.accountIdOf(key.value.publicKey);
      var address := EncodeClassicAddress(crypto.checksum, accountId);
      treasuries := treasuries[h.treasuryId := Treasury(key.value, accountId, address.value, policy, h.policyCommitment)];
      reply := Ok(Bind(h.chainId, h.controller, h.treasuryId, address.value, h.policyCommitment));
    }

    method RegisterPolicy(h: Header, policy: Policy) returns (reply: Reply)
      modifies this
      ensures Handled(State(), reply) == HandleRegisterPolicy(old(State()), h, policy)
    {
      var invalid := ValidateHeaderCommitment(h, policy);
      if invalid.Some? {
        return Err(invalid.value);
      }
      var ok := h.treasuryId in treasuries;
      if ok {
        var t := treasuries[h.treasuryId];
        t := t.(policy := policy);
        t := t.(policyCommitment := h.policyCommitment);
        treasuries := treasuries[h.treasuryId := t];
      }
      if !ok {
        return Err(UnknownTreasury);
      }
      reply := Ok(Confirm(h.chainId, h.controller, h.treasuryId, policy, h.policyCommitment));
    }

    method AuthorizePayment(h: Header, ciphertext: seq<byte>, nodeUp: bool) returns (reply: Reply)
      modifies this
      ensures Handled(State(), reply) == HandleAuthorizePayment(crypto, old(State()), h, ciphertext, nodeUp)
    {
      if |ciphertext| == 0 {
        return Err(EmptyPayload);
      }
      var payloadHash := HashData(ciphertext);
      if h.treasuryId !in treasuries {
        return Err(UnknownTreasury);
      }
      var t := treasuries[h.treasuryId];
      if h.policyCommitment != t.policyCommitment {
        return Err(CommitmentMismatch);
      }
      if !nodeUp || crypto.decrypt(ciphertext).None? {
        return Err(DecryptFailed);
      }
      var pi := crypto.decrypt(ciphertext).value;
      var unbound := BindPayloadToHeader(pi, h);
      if unbound.Some? {
        return Err(unbound.value);
      }
      var account := DecodeClassicAddress(crypto.checksum, pi.destination);
      if account.Err? {
        return Err(BadDestination(account.error));
      }
      if pi.destination == t.address {
        return Err(DestinationIsTreasury);
      }
      if pi.amountDrops >= 0x1_0000_0000_0000_0000 {
        return Err(AmountTooWide);
      }
      var over := CheckPolicy(t.policy, pi.amountDrops);
      if over.Some? {
        return Err(over.value);
      }
      authorizations := authorizations[h.requestId := StoredAuthorization(
        h.treasuryId, pi.destination, pi.amountDrops, pi.destinationTag, pi.hasDestinationTag,
        h.memoRef, h.expiresAt, payloadHash)];
      reply := Ok(Authorization(h.chainId, h.controller, h.requestId, h.memoRef, pi.amountDrops,
                                           HashText(pi.destination), payloadHash));
    }

    method LastLedgerFor(currentLedger: uint32, expiresAt: uint64, now: int) returns (last: uint32)
      ensures last == LastLedger(currentLedger, expiresAt, now)
    {
      var remaining := Int64(Int64(expiresAt) - now);
      var window: int := MIN_LEDGER_WINDOW;
      if remaining > 0 {
        window := remaining / SECONDS_PER_LEDGER;
      }
      if window < MIN_LEDGER_WINDOW {
        window := MIN_LEDGER_WINDOW;
      }
      if window > MAX_LEDGER_WINDOW {
        window := MAX_LEDGER_WINDOW;
      }
      last := (currentLedger + window) % 0x1_0000_0000;
    }

    method SignPayment(h: Header, input: Input) returns (reply: Reply)
      modifies this
      ensures Handled(State(), reply) == HandleSignPayment(crypto, old(State()), h, input)
    {
      if h.requestId !in authorizations {
        return Err(NeverAuthorized);
      }
      var auth := authorizations[h.requestId];
      if auth.treasuryId !in treasuries {
        return Err(NoKey);
      }
      var t := treasuries[auth.treasuryId];
      if auth.memoRef != h.memoRef {
        return Err(EnclaveError.MemoMismatch);
      }
      if h.treasuryId != auth.treasuryId {
        return Err(TreasuryMismatch);
      }
      var destination := DecodeClassicAddress(crypto.checksum, auth.destination);
      if destination.Err? {
        return Err(BadDestination(destination.error));
      }
      if input.sequence.None? {
        return Err(SequenceUnread);
      }
      if input.ledger.None? {
        return Err(LedgerUnread);
      }
      var last := LastLedgerFor(input.ledger.value, auth.expiresAt, input.now);
      var payment := new Payment(PaymentData(
        t.accountId, destination.value, auth.amountDrops, DEFAULT_FEE_DROPS, input.sequence.value, last,
        auth.tag, auth.hasTag, EncodeMemo(crypto.word, auth.memoRef), t.key.publicKey));
      var signed := payment.Sign(Some(t.key), crypto.ecdsa);
      if signed.Err? {
        return Err(SignFailed(signed.error));
      }
      authorizations := authorizations - {h.requestId};
      reply := Ok(SignedPayment(h.chainId, h.controller, h.requestId, h.memoRef, signed.value.txId, signed.value.txBlob));
    }
  }
}
