/** What the enclave keeps over any sequence of deliveries, one handler at a time. */
module EnclaveRuns {
  import opened Wrappers
  import opened Bytes
  import opened Protocol
  import opened ClassicAddress
  import opened Payments
  import opened PaymentRoundTrip
  import opened EnclaveState

  /** An instruction reaching the enclave, and what the outside world answers meanwhile. */
  datatype Delivery = Delivery(instruction: Instruction, input: Input)

  ghost function HandleDelivery(crypto: Crypto, v: Vault, d: Delivery): Handled {
    Handle(crypto, v, d.instruction, d.input)
  }

  ghost function VaultRun(crypto: Crypto, v: Vault, ds: seq<Delivery>): Vault {
    if ds == [] then v
    else HandleDelivery(crypto, VaultRun(crypto, v, ds[..|ds| - 1]), ds[|ds| - 1]).vault
  }

  const EMPTY: Vault := Vault(map[], map[])

  /** A successful authorization, or signature, for a request. */
  ghost predicate Authorizes(crypto: Crypto, v: Vault, d: Delivery, rid: nat) {
    && d.instruction.command.AuthorizePayment? && d.instruction.header.requestId == rid
    && HandleDelivery(crypto, v, d).reply.Ok?
  }

  ghost predicate Signs(crypto: Crypto, v: Vault, d: Delivery, rid: nat) {
    && d.instruction.command.SignXrplPayment? && d.instruction.header.requestId == rid
    && HandleDelivery(crypto, v, d).reply.Ok?
  }

  lemma VaultStep(crypto: Crypto, v: Vault, ds: seq<Delivery>, i: nat)
    requires i < |ds|
    ensures VaultRun(crypto, v, ds[..i + 1]) == HandleDelivery(crypto, VaultRun(crypto, v, ds[..i]), ds[i]).vault
  {
    assert ds[..i + 1][..i] == ds[..i];
  }

  /** A handler that fails changes nothing: after a failed ledger read or a failed Sign the
      authorization is still there. */
  lemma FailureChangesNothing(crypto: Crypto, v: Vault, d: Delivery)
    requires HandleDelivery(crypto, v, d).reply.Err?
    ensures HandleDelivery(crypto, v, d).vault == v
  {
    hide EncodeAddress, DecodeAddress, SignedPaymentOf, RefusePayment;
  }

  // ---- One signature per authorization ----

  /** What one delivery does to a request's authorization. */
  lemma AuthorizationStep(crypto: Crypto, v: Vault, d: Delivery, rid: nat)
    ensures
      var v' := HandleDelivery(crypto, v, d).vault;
      if Authorizes(crypto, v, d, rid) then
        !Signs(crypto, v, d, rid) && rid in v'.authorizations && v'.authorizations[rid] == Granted(crypto, d)
      else if Signs(crypto, v, d, rid) then
        rid in v.authorizations && rid !in v'.authorizations
      else
        && (rid in v'.authorizations <==> rid in v.authorizations)
        && (rid in v.authorizations ==> v'.authorizations[rid] == v.authorizations[rid])
  {
    hide EncodeAddress, DecodeAddress, SignedPaymentOf, RefusePayment;
  }

  /** The record a successful authorization stores: the decrypted terms under the header's request. */
  ghost function Granted(crypto: Crypto, d: Delivery): StoredAuthorization {
    var h := d.instruction.header;
    match d.instruction.command
    case AuthorizePayment(ciphertext) =>
      (match crypto.decrypt(ciphertext)
       case Some(pi) => StoredAuthorization(h.treasuryId, pi.destination, pi.amountDrops % 0x1_0000_0000_0000_0000,
                                            pi.destinationTag, pi.hasDestinationTag, h.memoRef, h.expiresAt, HashData(ciphertext))
       case None => StoredAuthorization(0, "", 0, 0, false, Zero, 0, Zero))
    case _ => StoredAuthorization(0, "", 0, 0, false, Zero, 0, Zero)
  }

  ghost function Authorizings(crypto: Crypto, v: Vault, ds: seq<Delivery>, rid: nat): nat {
    if ds == [] then 0
    else
      var front, d := ds[..|ds| - 1], ds[|ds| - 1];
      Authorizings(crypto, v, front, rid) + if Authorizes(crypto, VaultRun(crypto, v, front), d, rid) then 1 else 0
  }

  ghost function Signings(crypto: Crypto, v: Vault, ds: seq<Delivery>, rid: nat): nat {
    if ds == [] then 0
    else
      var front, d := ds[..|ds| - 1], ds[|ds| - 1];
      Signings(crypto, v, front, rid) + if Signs(crypto, VaultRun(crypto, v, front), d, rid) then 1 else 0
  }

  /** Signings of a request never exceed its authorizations; an unused authorization is one still
      unspent. */
  lemma {:induction false} OneSignaturePerAuthorization(crypto: Crypto, ds: seq<Delivery>, rid: nat)
    ensures Signings(crypto, EMPTY, ds, rid) + (if rid in VaultRun(crypto, EMPTY, ds).authorizations then 1 else 0)
         <= Authorizings(crypto, EMPTY, ds, rid)
  {
    hide HandleDelivery, Authorizes, Signs;
    if ds != [] {
      OneSignaturePerAuthorization(crypto, ds[..|ds| - 1], rid);
      AuthorizationStep(crypto, VaultRun(crypto, EMPTY, ds[..|ds| - 1]), ds[|ds| - 1], rid);
    }
  }

  /** The authorization in force for a request after a run: the last one granted, nothing having
      signed or granted since. */
  ghost predicate GrantedAt(crypto: Crypto, ds: seq<Delivery>, rid: nat, i: nat) {
    && i < |ds| && Authorizes(crypto, VaultRun(crypto, EMPTY, ds[..i]), ds[i], rid)
    && forall k :: i < k < |ds| ==>
         !Authorizes(crypto, VaultRun(crypto, EMPTY, ds[..k]), ds[k], rid) && !Signs(crypto, VaultRun(crypto, EMPTY, ds[..k]), ds[k], rid)
  }

  lemma {:induction false} AuthorizationOrigin(crypto: Crypto, ds: seq<Delivery>, rid: nat) returns (i: nat)
    requires rid in VaultRun(crypto, EMPTY, ds).authorizations
    ensures GrantedAt(crypto, ds, rid, i)
    ensures VaultRun(crypto, EMPTY, ds).authorizations[rid] == Granted(crypto, ds[i])
  {
    hide HandleDelivery, Authorizes, Signs, Granted;
    i := 0;
    var n := |ds|;
    if n > 0 {
      var front := ds[..n - 1];
      var v := VaultRun(crypto, EMPTY, front);
      AuthorizationStep(crypto, v, ds[n - 1], rid);
      if Authorizes(crypto, v, ds[n - 1], rid) {
        i := n - 1;
      } else {
        i := AuthorizationOrigin(crypto, front, rid);
        assert forall k :: 0 <= k < n ==> front[..k] == ds[..k];
      }
    }
  }

  // ---- What gets signed ----

  /** A signed result's blob is exactly the payment of the job's terms. */
  ghost predicate PaysFor(crypto: Crypto, body: ResultBody, auth: StoredAuthorization, accountId: seq<byte>) {
    && body.SignedPayment?
    && body.expectedTxId == TransactionId(body.signedTxBlob)
    && Exact(body.signedTxBlob)
    && var p := ReadBlobAsPayment(body.signedTxBlob).value.payment;
       && p.account == accountId
       && DecodeAddress(crypto.checksum, auth.destination) == Ok(p.destination)
       && p.amountDrops == auth.amountDrops && p.feeDrops == DEFAULT_FEE_DROPS
       && p.hasDestinationTag == auth.hasTag && (auth.hasTag ==> p.destinationTag == auth.tag)
       && p.memo == EncodeMemo(crypto.word, auth.memoRef)
  }

  ghost predicate BoundedBy(body: ResultBody, ledger: uint32, expiresAt: uint64, now: int) {
    && body.SignedPayment? && ReadBlobAsPayment(body.signedTxBlob).Some?
    && ReadBlobAsPayment(body.signedTxBlob).value.payment.lastLedgerSequence == LastLedger(ledger, expiresAt, now)
  }

  lemma SignedOf(p: PaymentData, key: SigningKey, ecdsa: Ecdsa)
    requires SignedPaymentOf(p, Some(key), ecdsa).Ok? && p.signingPubKey == key.publicKey
    ensures
      var signed := SignedPaymentOf(p, Some(key), ecdsa).value;
      && signed.txId == TransactionId(signed.txBlob) && signed.txBlob != []
      && ReadBlobAsPayment(signed.txBlob) == Some(Reading(Normal(p), Some(signed.signature))) && Exact(signed.txBlob)
  {
    hide FieldsOf, ReadPayment, Exact;
    var signed := SignedPaymentOf(p, Some(key), ecdsa).value;
    assert p.(signingPubKey := key.publicKey) == p;
    assert Serialized(p, Some(signed.signature)) == Ok(signed.txBlob);
    PaymentCodecRoundTrip(p, Some(signed.signature));
    SerializedIsExact(p, Some(signed.signature));
    EmptyIsNoPayment();
  }

  lemma EmptyIsNoPayment()
    ensures ReadBlobAsPayment([]) == None
  {
  }

  lemma JobPays(crypto: Crypto, job: Job, input: Input)
    requires SignJob(crypto, job, input).Ok?
    ensures
      var signed, h := SignJob(crypto, job, input).value, job.header;
      var body := SignedPayment(h.chainId, h.controller, h.requestId, h.memoRef, signed.txId, signed.txBlob);
      && signed.txBlob != [] && PaysFor(crypto, body, job.auth, job.treasury.accountId)
      && input.ledger.Some? && BoundedBy(body, input.ledger.value, job.auth.expiresAt, input.now)
      && input.sequence.Some? && ReadBlobAsPayment(signed.txBlob).value.payment.sequence == input.sequence.value
  {
    hide ReadBlobAsPayment, SignedPaymentOf, LastLedger, DecodeAddress;
    var p := PaymentFor(crypto, job, DecodeAddress(crypto.checksum, job.auth.destination).value,
                        input.sequence.value, input.ledger.value, input.now);
    SignedOf(p, job.treasury.key, crypto.ecdsa);
  }

  /** Every signature a run produces is for the terms of an earlier authorization of that request
      that nothing had used since, drawn on the account of the treasury's key. */
  lemma SignedPaymentCarriesItsAuthorization(crypto: Crypto, ds: seq<Delivery>, j: nat) returns (i: nat)
    requires j < |ds| && ds[j].instruction.command.SignXrplPayment?
    requires Signs(crypto, VaultRun(crypto, EMPTY, ds[..j]), ds[j], ds[j].instruction.header.requestId)
    ensures i < j && GrantedAt(crypto, ds[..j], ds[j].instruction.header.requestId, i)
    ensures SignsFor(crypto, VaultRun(crypto, EMPTY, ds[..j]), ds[j], Granted(crypto, ds[i]))
  {
    hide SignsFor, Granted, VaultRun;
    var h := ds[j].instruction.header;
    var v := VaultRun(crypto, EMPTY, ds[..j]);
    i := AuthorizationOrigin(crypto, ds[..j], h.requestId);
    assert ds[..j][i] == ds[i];
    SignsForStored(crypto, v, ds[j]);
  }

  /** A signature for an authorization's terms, drawn on its treasury's account. */
  ghost predicate SignsFor(crypto: Crypto, v: Vault, d: Delivery, auth: StoredAuthorization) {
    && auth.treasuryId in v.treasuries && auth.memoRef == d.instruction.header.memoRef
    && HandleDelivery(crypto, v, d).reply.Ok?
    && PaysFor(crypto, HandleDelivery(crypto, v, d).reply.value, auth, v.treasuries[auth.treasuryId].accountId)
  }

  lemma SignsForStored(crypto: Crypto, v: Vault, d: Delivery)
    requires d.instruction.command.SignXrplPayment? && HandleDelivery(crypto, v, d).reply.Ok?
    ensures d.instruction.header.requestId in v.authorizations
    ensures SignsFor(crypto, v, d, v.authorizations[d.instruction.header.requestId])
  {
    hide SignJob, PaysFor, BoundedBy;
    JobPays(crypto, BeginSign(v, d.instruction.header).value, d.input);
  }

  // ---- Keys ----

  /** A treasury's key, account and address. */
  ghost predicate SameKey(t: Treasury, t': Treasury) {
    t'.key == t.key && t'.accountId == t.accountId && t'.address == t.address
  }

  lemma KeyStep(crypto: Crypto, v: Vault, d: Delivery, tid: nat)
    requires tid in v.treasuries
    ensures tid in HandleDelivery(crypto, v, d).vault.treasuries
    ensures SameKey(v.treasuries[tid], HandleDelivery(crypto, v, d).vault.treasuries[tid])
  {
    hide EncodeAddress, DecodeAddress, SignedPaymentOf, RefusePayment;
  }

  /** Once created, a treasury's key never changes. */
  lemma {:induction false} KeyNeverChanges(crypto: Crypto, v: Vault, ds: seq<Delivery>, tid: nat, i: nat, j: nat)
    requires i <= j <= |ds| && tid in VaultRun(crypto, v, ds[..i]).treasuries
    ensures tid in VaultRun(crypto, v, ds[..j]).treasuries
    ensures SameKey(VaultRun(crypto, v, ds[..i]).treasuries[tid], VaultRun(crypto, v, ds[..j]).treasuries[tid])
  {
    hide HandleDelivery, VaultRun;
    if i < j {
      KeyNeverChanges(crypto, v, ds, tid, i, j - 1);
      VaultStep(crypto, v, ds, j - 1);
      KeyStep(crypto, VaultRun(crypto, v, ds[..j - 1]), ds[j - 1], tid);
    }
  }

  /** The address the enclave reports for a key. */
  function AddressOfKey(crypto: Crypto, key: SigningKey): string {
    var r := EncodeAddress(crypto.checksum, crypto.accountIdOf(key.publicKey));
    if r.Ok? then r.value else ""
  }

  /** Every key has one, and it is not empty. */
  lemma AddressExists(crypto: Crypto, key: SigningKey)
    ensures EncodeAddress(crypto.checksum, crypto.accountIdOf(key.publicKey)) == Ok(AddressOfKey(crypto, key))
    ensures AddressOfKey(crypto, key) != ""
  {
    DecodesItsEncoding(crypto.checksum, crypto.accountIdOf(key.publicKey));
  }

  // ---- The ledger window ----

  /** The window fits the time left and the settlement grace, at up to 8.8 seconds a ledger. */
  lemma WindowFitsGrace(expiresAt: uint64, now: nat)
    requires now <= expiresAt
    ensures 44 * LedgerWindow(expiresAt, now) <= 5 * (expiresAt - now + 3600)
  {
  }

  /** No slower pace would do: with 3000 seconds left the two sides are equal. */
  lemma WindowTight(now: nat)
    requires now + 3000 < 0x8000_0000_0000_0000
    ensures 44 * LedgerWindow(now + 3000, now) == 5 * (3000 + 3600)
  {
  }
}
