/** BridgeSafeFdcVerifier as the object it is, calling the controller it was deployed with. */
module Verifiers {
  import opened Wrappers
  import opened Protocol
  import opened Books
  import opened Controllers
  import opened Settlement

  class BridgeSafeFdcVerifier {
    const controller: BridgeSafeController
    const site: Site
    var settledBy: map<Bytes32, nat>

    /** The storage of both contracts. */
    function State(): System
      reads this, controller
    {
      System(controller.Storage(), settledBy)
    }

    constructor (controller: BridgeSafeController, site: Site)
      requires site.expectedSourceId != Zero
      ensures this.controller == controller && this.site == site
      ensures State() == System(controller.Storage(), map[])
    {
      this.controller := controller;
      this.site := site;
      settledBy := map[];
    }

    method IsTxIdUsed(txId: Bytes32) returns (used: bool)
      ensures used <==> PriorUse(settledBy, txId) != 0
    {
      used := txId in settledBy && settledBy[txId] != 0;
    }

    method CheckAgainst(rid: nat, body: ResponseBody) returns (error: Option<SettleError>)
      ensures error == CheckAgainstRequest(controller.Storage(), site.word, rid, body)
    {
      var expectation := controller.SettlementExpectation(site.word, rid);
      if expectation.Err? {
        return Some(ControllerReverted(expectation.error));
      }
      var e := expectation.value;
      if e.state != SIGNED && e.state != BROADCAST {
        return Some(RequestNotBroadcastable);
      }
      if body.sourceAddressHash != e.sourceAddressHash {
        return Some(SourceAccountMismatch);
      }
      if body.receivingAddressHash != e.destinationHash {
        return Some(DestinationMismatch);
      }
      if body.receivedAmount <= 0 || body.receivedAmount != e.amountDrops {
        return Some(AmountMismatch);
      }
      if !body.hasMemoData {
        return Some(MissingMemo);
      }
      if HashData(body.firstMemoData) != HashData(e.expectedMemo) {
        return Some(MemoMismatch);
      }
      return None;
    }

    /** The transaction id is recorded before the controller is called; a revert there undoes it. */
    method FinalizePayment(verified: bool, rid: nat, proof: Proof) returns (error: Option<SettleError>)
      modifies this, controller
      ensures match Settlement.FinalizePayment(site, old(State()), verified, rid, proof)
              case Ok(s) => error == None && State() == s
              case Err(e) => error == Some(e) && State() == old(State())
    {
      if !verified {
        return Some(InvalidFdcProof);
      }
      if proof.attestationType != ATTESTATION_TYPE_XRP_PAYMENT {
        return Some(WrongAttestationType);
      }
      if proof.sourceId != site.expectedSourceId {
        return Some(WrongSourceId);
      }
      if proof.body.status != XRPL_STATUS_SUCCESS {
        return Some(XrplTransactionFailed);
      }
      var txId, before := proof.transactionId, settledBy;
      var used := IsTxIdUsed(txId);
      if used {
        return Some(TxIdAlreadyUsed);
      }
      error := CheckAgainst(rid, proof.body);
      if error.Some? {
        return;
      }
      settledBy := settledBy[txId := rid];
      var rejected := controller.MarkSettled(site.self, rid, txId);
      if rejected.Some? {
        settledBy := before;
        return Some(ControllerReverted(rejected.value));
      }
      error := None;
    }
  }
}
