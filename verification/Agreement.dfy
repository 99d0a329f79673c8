/** What the protocol is for, over every history: the payment the controller accepted is the payment
    the request asked for; once XRPL executed it, it can be settled; once it expired, it cannot
    happen any more. */
module Agreement {
  import opened Wrappers
  import opened Bytes
  import opened Protocol
  import opened ClassicAddress
  import opened Payments
  import opened PaymentRoundTrip
  import opened Books
  import opened BookInvariant
  import opened Settlement
  import opened EnclaveState
  import opened EnclaveRuns
  import opened World
  import opened WorldInvariant
  import opened WorldRuns

  // ---- Terms agreement ----

  /** A blob is exactly the payment a request says, with no other field or flag: from the treasury's
      bound account, the reserved amount, to the address whose hash was authorized, with the request's
      memo, under the predicted id. */
  ghost predicate Agrees(net: Net, b: Book, rid: nat, blob: seq<byte>) {
    && rid in b.requests && b.requests[rid].treasuryId in b.treasuries
    && Exact(blob)
    && var r, t, p := b.requests[rid], b.treasuries[b.requests[rid].treasuryId], ReadBlobAsPayment(blob).value.payment;
       && t.bound && DecodeAddress(net.crypto.checksum, t.xrplAddress) == Ok(p.account)
       && p.amountDrops == r.amountDrops > 0
       && EncodeAddress(net.crypto.checksum, p.destination).Ok?
       && HashText(EncodeAddress(net.crypto.checksum, p.destination).value) == r.destinationHash
       && p.memo == EncodeMemo(net.crypto.word, r.memoRef)
       && r.expectedTxId == TransactionId(blob)
  }

  /** The request has accepted this blob: its hash is on record. */
  predicate Accepted(b: Book, rid: nat, blob: seq<byte>) {
    rid in b.requests && b.requests[rid].signedBlobHash == HashData(blob)
  }

  /** The records behind an accepted blob. */
  lemma SignatureBehind(net: Net, s: State, rid: nat, blob: seq<byte>) returns (g: Signature)
    requires WorldInv(net, s) && Accepted(s.system.book, rid, blob)
    ensures g in s.signings && AcceptedFrom(s.system.book.requests[rid], rid, g) && g.body.signedTxBlob == blob
    ensures SignatureOk(net, s, g)
    ensures StageOk(s.system.book.requests[rid], s.clock) && TermsOk(net, s.system.book.requests[rid])
  {
    hide SystemInv, LogOk, VaultOk, JobsOk, EmissionsOk, BoundsOk, SettlementsOk, SignatureOk, TermsOf;
    assert RequestGood(net, s, rid);
    g :| g in s.signings && AcceptedFrom(s.system.book.requests[rid], rid, g);
  }

  lemma HomeOf(net: Net, s: State, rid: nat)
    requires WorldInv(net, s) && rid in s.system.book.requests
    ensures
      var b := s.system.book;
      var tid := b.requests[rid].treasuryId;
      && tid in b.treasuries && b.treasuries[tid].bound && tid in s.vault.treasuries
      && b.treasuries[tid].xrplAddress == s.vault.treasuries[tid].address
      && b.treasuries[tid].xrplAddressHash == HashText(b.treasuries[tid].xrplAddress)
      && AddressOk(net, s.vault.treasuries[tid])
  {
    hide LogOk, JobsOk, EmissionsOk, SignaturesOk, RequestsOk, SettlementsOk, HasTerms, AddressOk, Numbered, Conserved, ListOk;
    var b := s.system.book;
    assert RequestOk(b, rid);
    assert TreasuryOk(b, b.requests[rid].treasuryId);
    assert BoundOk(s, b.requests[rid].treasuryId);
  }

  lemma AcceptedAgrees(net: Net, s: State, rid: nat, blob: seq<byte>)
    requires WorldInv(net, s) && Accepted(s.system.book, rid, blob)
    ensures Agrees(net, s.system.book, rid, blob)
  {
    hide WorldInv, TermsOf, BoundedBy, ReadBlobAsPayment, EncodeAddress, DecodeAddress, StageOk, EncodeMemo;
    var g := SignatureBehind(net, s, rid, blob);
    HomeOf(net, s, rid);
    SignatureAgrees(net, s, rid, g);
  }

  lemma SignatureAgrees(net: Net, s: State, rid: nat, g: Signature)
    requires rid in s.system.book.requests && SignatureOk(net, s, g)
    requires AcceptedFrom(s.system.book.requests[rid], rid, g)
    requires StageOk(s.system.book.requests[rid], s.clock) && TermsOk(net, s.system.book.requests[rid])
    requires
      var b, tid := s.system.book, s.system.book.requests[rid].treasuryId;
      && tid in b.treasuries && b.treasuries[tid].bound && tid in s.vault.treasuries
      && b.treasuries[tid].xrplAddress == s.vault.treasuries[tid].address && AddressOk(net, s.vault.treasuries[tid])
    ensures Agrees(net, s.system.book, rid, g.body.signedTxBlob)
  {
    hide TermsOf, BoundedBy, ReadBlobAsPayment, EncodeAddress, DecodeAddress, EncodeMemo;
    var r := s.system.book.requests[rid];
    var auth := TermsOf(net, r).value;
    TermsIdentity(net, r, auth);
    AddressCanonicity(net.crypto.checksum, s.vault.treasuries[r.treasuryId].address, s.vault.treasuries[r.treasuryId].accountId);
    AddressCanonicity(net.crypto.checksum, auth.destination, DecodeAddress(net.crypto.checksum, auth.destination).value);
  }

  /** Terms agreement: after any history, any blob a request has accepted pays that request. */
  lemma TermsAgreement(net: Net, config: Config, s: State, rid: nat, blob: seq<byte>)
    requires Wired(net, config) && Reachable(net, config, s) && Accepted(s.system.book, rid, blob)
    ensures Agrees(net, s.system.book, rid, blob)
  {
    hide *;
    ReachableInv(net, config, s);
    AcceptedAgrees(net, s, rid, blob);
  }

  /** Acceptance puts the blob on record, so it is covered at once. */
  lemma SubmittedIsAccepted(b: Book, now: nat, res: TeeResult)
    requires SubmitSignedPayment(b, now, res).Ok?
    ensures res.body.SignedPayment?
    ensures Accepted(SubmitSignedPayment(b, now, res).value, res.body.requestId, res.body.signedTxBlob)
  {
  }

  // ---- Settleability ----

  /** What FDC truthfully attests when XRPL has executed a blob. */
  ghost function ReportOf(net: Net, blob: seq<byte>): Option<ResponseBody> {
    match ReadBlobAsPayment(blob)
    case None => None
    case Some(reading) =>
      var p := reading.payment;
      var source, receiver := EncodeAddress(net.crypto.checksum, p.account), EncodeAddress(net.crypto.checksum, p.destination);
      if source.Err? || receiver.Err? then None
      else Some(ResponseBody(XRPL_STATUS_SUCCESS, HashText(source.value), HashText(receiver.value), p.amountDrops,
                             p.memo != [], p.memo))
  }

  function ProofOf(net: Net, round: nat, txId: Bytes32, body: ResponseBody): Proof {
    Proof(ATTESTATION_TYPE_XRP_PAYMENT, net.site.expectedSourceId, round, txId, body)
  }

  lemma ReportMatches(net: Net, b: Book, rid: nat, blob: seq<byte>, body: ResponseBody)
    requires Agrees(net, b, rid, blob) && ReportOf(net, blob) == Some(body) && net.site.word == net.crypto.word
    requires b.requests[rid].state == SIGNED || b.requests[rid].state == BROADCAST
    requires b.treasuries[b.requests[rid].treasuryId].xrplAddressHash == HashText(b.treasuries[b.requests[rid].treasuryId].xrplAddress)
    ensures body.status == XRPL_STATUS_SUCCESS
    ensures CheckAgainstRequest(b, net.site.word, rid, body) == None
  {
    hide ReadBlobAsPayment, EncodeAddress, DecodeAddress;
    var t, p := b.treasuries[b.requests[rid].treasuryId], ReadBlobAsPayment(blob).value.payment;
    AddressCanonicity(net.crypto.checksum, t.xrplAddress, p.account);
  }

  /** A transaction id settled for another request carries another memo. */
  lemma IdUnused(net: Net, s: State, rid: nat, blob: seq<byte>, body: ResponseBody)
    requires WorldInv(net, s) && WordsDistinct(s.system.book, net.crypto.word)
    requires Agrees(net, s.system.book, rid, blob) && ReportOf(net, blob) == Some(body)
    requires s.system.book.requests[rid].state != SETTLED
    requires net.fdc(s.system.book.requests[rid].expectedTxId) == Some(body)
    ensures s.system.book.requests[rid].expectedTxId !in s.system.settledBy
  {
    var b, txId := s.system.book, s.system.book.requests[rid].expectedTxId;
    hide Inv, LogOk, VaultOk, JobsOk, SignaturesOk, EmissionsOk, BoundsOk, RequestsOk, WordsDistinct, EncodeMemo, ReadBlobAsPayment,
         EncodeAddress, DecodeAddress;
    if txId in s.system.settledBy {
      assert SettledTruly(net, s, txId);
      var other := s.system.settledBy[txId];
      MemoDeterminesRequest(b, net.crypto.word, rid, other);
    }
  }

  /** Settleability: once XRPL has executed the accepted blob and FDC reports it, finalizePayment
      succeeds and the request is settled under the id it predicted. */
  lemma Settleability(net: Net, config: Config, s: State, rid: nat, blob: seq<byte>, body: ResponseBody, round: nat)
    requires Wired(net, config) && Reachable(net, config, s) && Accepted(s.system.book, rid, blob)
    requires s.system.book.requests[rid].state == SIGNED || s.system.book.requests[rid].state == BROADCAST
    requires WordsDistinct(s.system.book, net.crypto.word)
    requires ReportOf(net, blob) == Some(body) && net.fdc(s.system.book.requests[rid].expectedTxId) == Some(body)
    ensures
      var txId := s.system.book.requests[rid].expectedTxId;
      var outcome := FinalizePayment(net.site, s.system, true, rid, ProofOf(net, round, txId, body));
      && World.Possible(net, s, Settle(true, rid, ProofOf(net, round, txId, body)))
      && outcome.Ok? && IsSettled(outcome.value.book, rid) && outcome.value.settledBy == s.system.settledBy[txId := rid]
  {
    hide Reachable, WorldInv, Agrees, WordsDistinct, ReportOf, FinalizePayment;
    ReachableInv(net, config, s);
    AcceptedAgrees(net, s, rid, blob);
    HomeOf(net, s, rid);
    ReportMatches(net, s.system.book, rid, blob, body);
    IdUnused(net, s, rid, blob, body);
    VerifierRegistered(net, s);
    Finalizes(net.site, s.system, rid, ProofOf(net, round, s.system.book.requests[rid].expectedTxId, body));
  }

  lemma VerifierRegistered(net: Net, s: State)
    requires WorldInv(net, s)
    ensures s.system.book.config.fdcVerifier == net.site.self && net.site.word == net.crypto.word
  {
    hide Inv, Bijection, LogOk, VaultOk, JobsOk, SignaturesOk, EmissionsOk, BoundsOk, RequestsOk, SettlementsOk;
  }

  lemma Finalizes(v: Site, s: System, rid: nat, proof: Proof)
    requires s.book.config.fdcVerifier == v.self && rid in s.book.requests
    requires s.book.requests[rid].state == SIGNED || s.book.requests[rid].state == BROADCAST
    requires proof.attestationType == ATTESTATION_TYPE_XRP_PAYMENT && proof.sourceId == v.expectedSourceId
    requires proof.body.status == XRPL_STATUS_SUCCESS && proof.transactionId !in s.settledBy
    requires CheckAgainstRequest(s.book, v.word, rid, proof.body) == None
    ensures FinalizePayment(v, s, true, rid, proof).Ok?
    ensures IsSettled(FinalizePayment(v, s, true, rid, proof).value.book, rid)
    ensures FinalizePayment(v, s, true, rid, proof).value.settledBy == s.settledBy[proof.transactionId := rid]
  {
    hide CheckAgainstRequest;
  }

  // ---- Expiry safety ----

  /** XRPL validates a ledger at least every 8.8 seconds on average: k ledgers in 8.8 k seconds. */
  ghost predicate KeepsPace(ledgerAt: nat -> nat) {
    forall t: nat, t': nat, k: nat :: TimeFor(t, t', k) ==> ledgerAt(t) + k <= ledgerAt(t')
  }

  predicate TimeFor(t: nat, t': nat, k: nat) {
    t <= t' && 44 * k <= 5 * (t' - t)
  }

  /** No ledger index the enclave read was ahead of the ledger; it may lag behind. */
  ghost predicate ReadsNotAhead(s: State, ledgerAt: nat -> nat) {
    forall g :: g in s.signings ==> g.ledger <= ledgerAt(g.at)
  }

  lemma WindowCloses(g: Signature, expiresAt: uint64, now: nat, ledgerAt: nat -> nat)
    requires KeepsPace(ledgerAt) && g.ledger <= ledgerAt(g.at) && g.at <= expiresAt && now > expiresAt + SETTLEMENT_GRACE
    ensures LastLedger(g.ledger, expiresAt, g.at) <= ledgerAt(now)
  {
    hide LedgerWindow;
    WindowFitsGrace(expiresAt, g.at);
    assert TimeFor(g.at, now, LedgerWindow(expiresAt, g.at));
  }

  /** Timed expiry safety: when a request has expired after a blob was accepted for it, the validated
      ledger has reached the blob's LastLedgerSequence, so no later ledger can include it. */
  lemma ExpirySafety(net: Net, config: Config, s: State, rid: nat, blob: seq<byte>, ledgerAt: nat -> nat)
    requires Wired(net, config) && Reachable(net, config, s) && Accepted(s.system.book, rid, blob)
    requires s.system.book.requests[rid].state == EXPIRED
    requires KeepsPace(ledgerAt) && ReadsNotAhead(s, ledgerAt)
    ensures ReadBlobAsPayment(blob).Some?
    ensures ReadBlobAsPayment(blob).value.payment.lastLedgerSequence <= ledgerAt(s.clock)
  {
    hide Reachable, WorldInv, KeepsPace, ReadBlobAsPayment, LastLedger, TermsOf, PaysFor, TermsOk;
    ReachableInv(net, config, s);
    var g := SignatureBehind(net, s, rid, blob);
    WindowCloses(g, s.system.book.requests[rid].expiresAt, s.clock, ledgerAt);
  }
}
