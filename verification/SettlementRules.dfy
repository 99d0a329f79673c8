/** When a proof settles a request, and which error it raises otherwise: the requirements of
    contracts/src/BridgeSafeFdcVerifier.sol in the order they are checked. */
module SettlementRules {
  import opened Wrappers
  import opened Guards
  import opened Bytes
  import opened Protocol
  import opened Books
  import opened BookInvariant
  import opened Settlement
  import opened ControllerRules

  type SettleRules = seq<Guard<SettleError>>

  /** The proof itself. */
  function ProofRules(v: Site, s: System, verified: bool, proof: Proof): SettleRules {
    [Guard(verified, InvalidFdcProof),
     Guard(proof.attestationType == Ascii("XRPPayment"), WrongAttestationType),
     Guard(proof.sourceId == v.expectedSourceId, WrongSourceId),
     Guard(proof.body.status == 0, XrplTransactionFailed),
     Guard(proof.transactionId in s.settledBy ==> s.settledBy[proof.transactionId] == 0, TxIdAlreadyUsed)]
  }

  /** The 36 bytes a request's payment carries. */
  function MemoOf(word: Bytes32 -> Word32, r: Request): seq<byte> {
    [0x42, 0x53, 0x46, 0x31] + word(r.memoRef)
  }

  /** The payment against the request. */
  function MatchRules(v: Site, b: Book, rid: nat, body: ResponseBody): SettleRules {
    var r := RequestAt(b, rid);
    [Guard(rid in b.requests, ControllerReverted(UnknownRequest)),
     Guard(r.state == SIGNED || r.state == BROADCAST, RequestNotBroadcastable),
     Guard(body.sourceAddressHash == HomeOf(b, rid).xrplAddressHash, SourceAccountMismatch),
     Guard(body.receivingAddressHash == r.destinationHash, DestinationMismatch),
     Guard(body.receivedAmount > 0 && body.receivedAmount == r.amountDrops, AmountMismatch),
     Guard(body.hasMemoData, MissingMemo),
     Guard(body.firstMemoData == MemoOf(v.word, r), MemoMismatch),
     Guard(b.config.fdcVerifier == v.self, ControllerReverted(NotFdcVerifier))]
  }

  lemma MatchDecided(v: Site, s: System, rid: nat, proof: Proof)
    ensures
      var mismatch, marked := CheckAgainstRequest(s.book, v.word, rid, proof.body), MarkSettled(s.book, v.self, rid, proof.transactionId);
      Verdict(MatchRules(v, s.book, rid, proof.body)) ==
        (if mismatch.Some? then mismatch else if marked.Err? then Some(ControllerReverted(marked.error)) else None)
  {
    hide EncodeMemo;
    MemoIs(v.word, RequestAt(s.book, rid));
    Unfold(MatchRules(v, s.book, rid, proof.body));
  }

  lemma MemoIs(word: Bytes32 -> Word32, r: Request)
    ensures MemoOf(word, r) == EncodeMemo(word, r.memoRef)
  {
  }

  /** For any proof, request and state: finalizing succeeds exactly when every requirement holds, and
      otherwise reverts with the error of the first that does not. */
  lemma SettleRulesDecide(v: Site, s: System, verified: bool, rid: nat, proof: Proof)
    ensures
      var failure := Verdict(ProofRules(v, s, verified, proof) + MatchRules(v, s.book, rid, proof.body));
      match FinalizePayment(v, s, verified, rid, proof)
      case Ok(_) => failure == None
      case Err(e) => failure == Some(e)
  {
    hide CheckAgainstRequest, MatchRules, MarkSettled;
    Concat(ProofRules(v, s, verified, proof), MatchRules(v, s.book, rid, proof.body), 0);
    Unfold(ProofRules(v, s, verified, proof));
    MatchDecided(v, s, rid, proof);
  }

  /** In every reachable state of the two contracts, a proof settles a request exactly when FDC verified it,
      it attests a successful XRP payment on the expected ledger, the transaction settled no request before,
      the request is signed or broadcast, and the payment left the account the treasury is bound to, reached
      the request's destination, with its amount, carrying its memo. */
  lemma FinalizeExactly(v: Site, config: Config, actions: seq<Action>, verified: bool, rid: nat, proof: Proof)
    requires Deployed(v, config) && forall a :: a in actions ==> Settlement.Possible(v, a)
    requires rid in SystemRun(v, Fresh(config), actions).book.requests
    ensures
      var s := SystemRun(v, Fresh(config), actions);
      var r, body := s.book.requests[rid], proof.body;
      && r.treasuryId in s.book.treasuries
      && (FinalizePayment(v, s, verified, rid, proof).Ok? <==>
            && verified && proof.attestationType == Ascii("XRPPayment") && proof.sourceId == v.expectedSourceId
            && body.status == 0 && (forall k :: IsSettled(s.book, k) ==> s.book.requests[k].xrplTxId != proof.transactionId)
            && (r.state == SIGNED || r.state == BROADCAST)
            && body.sourceAddressHash == HashText(s.book.treasuries[r.treasuryId].xrplAddress)
            && body.receivingAddressHash == r.destinationHash
            && body.receivedAmount > 0 && body.receivedAmount == r.amountDrops
            && body.hasMemoData && body.firstMemoData == MemoOf(v.word, r))
  {
    hide SystemRun, Inv, FinalizePayment, Settlement.Possible, Bijection, MemoOf;
    var s := SystemRun(v, Fresh(config), actions);
    FreshInv(v, config);
    RunKeepsSystemInv(v, Fresh(config), actions);
    AddressHashed(s.book, rid);
    UsedExactly(v, s, proof.transactionId);
    AcceptedExactly(v, s, verified, rid, proof);
  }

  lemma AddressHashed(b: Book, rid: nat)
    requires Inv(b) && rid in b.requests
    ensures b.requests[rid].treasuryId in b.treasuries
    ensures
      var t := b.treasuries[b.requests[rid].treasuryId];
      t.xrplAddressHash == HashText(t.xrplAddress)
  {
    hide Numbered, ListOk, Conserved;
    assert RequestOk(b, rid) && TreasuryOk(b, b.requests[rid].treasuryId);
  }

  lemma UsedExactly(v: Site, s: System, txId: Bytes32)
    requires SystemInv(v, s)
    ensures (txId in s.settledBy ==> s.settledBy[txId] == 0)
       <==> forall k :: IsSettled(s.book, k) ==> s.book.requests[k].xrplTxId != txId
  {
    hide TreasuryOk, ListOk, Conserved, RequestOk;
    if txId in s.settledBy {
      assert IsSettled(s.book, s.settledBy[txId]);
    }
  }

  lemma AcceptedExactly(v: Site, s: System, verified: bool, rid: nat, proof: Proof)
    requires rid in s.book.requests && s.book.requests[rid].treasuryId in s.book.treasuries && s.book.config.fdcVerifier == v.self
    ensures
      var r, body := s.book.requests[rid], proof.body;
      FinalizePayment(v, s, verified, rid, proof).Ok? <==>
        && verified && proof.attestationType == Ascii("XRPPayment") && proof.sourceId == v.expectedSourceId
        && body.status == 0 && (proof.transactionId in s.settledBy ==> s.settledBy[proof.transactionId] == 0)
        && (r.state == SIGNED || r.state == BROADCAST)
        && body.sourceAddressHash == s.book.treasuries[r.treasuryId].xrplAddressHash
        && body.receivingAddressHash == r.destinationHash
        && body.receivedAmount > 0 && body.receivedAmount == r.amountDrops
        && body.hasMemoData && body.firstMemoData == MemoOf(v.word, r)
  {
    hide EncodeMemo;
    MemoIs(v.word, s.book.requests[rid]);
  }
}
