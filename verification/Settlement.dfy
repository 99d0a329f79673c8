/** Settlement (contracts/src/BridgeSafeFdcVerifier.sol) on top of the controller's storage, and what
    holds over every run of the two contracts together. */
module Settlement {
  import opened Wrappers
  import opened Bytes
  import opened Protocol
  import opened Books
  import opened BookInvariant
  import opened BookRuns
  import opened BudgetRuns

  const ATTESTATION_TYPE_XRP_PAYMENT: Bytes32 := Ascii("XRPPayment")
  const XRPL_STATUS_SUCCESS: nat := 0

  datatype ResponseBody = ResponseBody(
    status: nat, sourceAddressHash: Bytes32, receivingAddressHash: Bytes32, receivedAmount: int,
    hasMemoData: bool, firstMemoData: seq<byte>)

  datatype Proof = Proof(
    attestationType: Bytes32, sourceId: Bytes32, votingRound: nat, transactionId: Bytes32, body: ResponseBody)

  datatype SettleError =
    | InvalidFdcProof | WrongAttestationType | WrongSourceId | XrplTransactionFailed | TxIdAlreadyUsed
    | RequestNotBroadcastable | SourceAccountMismatch | DestinationMismatch | AmountMismatch
    | MissingMemo | MemoMismatch | ControllerReverted(error: Error)

  /** The verifier's fixed fields, and which 32 bytes each digest is. */
  datatype Site = Site(self: Address, expectedSourceId: Bytes32, word: Bytes32 -> Word32)

  /** The storage of both contracts. */
  datatype System = System(book: Book, settledBy: map<Bytes32, nat>)

  function PriorUse(settledBy: map<Bytes32, nat>, txId: Bytes32): nat {
    if txId in settledBy then settledBy[txId] else 0
  }

  /** Compare a verified response with what the request recorded. */
  function CheckAgainstRequest(b: Book, word: Bytes32 -> Word32, rid: nat, body: ResponseBody): Option<SettleError> {
    var expectation := SettlementExpectation(b, word, rid);
    if expectation.Err? then Some(ControllerReverted(expectation.error))
    else
      var e := expectation.value;
      if e.state != SIGNED && e.state != BROADCAST then Some(RequestNotBroadcastable)
      else if body.sourceAddressHash != e.sourceAddressHash then Some(SourceAccountMismatch)
      else if body.receivingAddressHash != e.destinationHash then Some(DestinationMismatch)
      else if body.receivedAmount <= 0 || body.receivedAmount != e.amountDrops then Some(AmountMismatch)
      else if !body.hasMemoData then Some(MissingMemo)
      else if HashData(body.firstMemoData) != HashData(e.expectedMemo) then Some(MemoMismatch)
      else None
  }

  /** `verified` is the FDC contract's answer for this proof. */
  function FinalizePayment(v: Site, s: System, verified: bool, rid: nat, proof: Proof): Result<System, SettleError> {
    if !verified then Err(InvalidFdcProof)
    else if proof.attestationType != ATTESTATION_TYPE_XRP_PAYMENT then Err(WrongAttestationType)
    else if proof.sourceId != v.expectedSourceId then Err(WrongSourceId)
    else if proof.body.status != XRPL_STATUS_SUCCESS then Err(XrplTransactionFailed)
    else if PriorUse(s.settledBy, proof.transactionId) != 0 then Err(TxIdAlreadyUsed)
    else
      var mismatch := CheckAgainstRequest(s.book, v.word, rid, proof.body);
      if mismatch.Some? then Err(mismatch.value)
      else
        var marked := MarkSettled(s.book, v.self, rid, proof.transactionId);
        if marked.Err? then Err(ControllerReverted(marked.error))
        else Ok(System(marked.value, s.settledBy[proof.transactionId := rid]))
  }

  // ---- Runs of the two contracts ----

  datatype Action =
    | Direct(event: Event)
    | Finalize(verified: bool, rid: nat, proof: Proof)

  /** The verifier contract calls markSettled from nowhere but finalizePayment. */
  predicate Possible(v: Site, a: Action) {
    a.Direct? && a.event.call.CallMarkSettled? ==> a.event.call.sender != v.self
  }

  predicate Settles(v: Site, s: System, a: Action) {
    a.Finalize? && FinalizePayment(v, s, a.verified, a.rid, a.proof).Ok?
  }

  function Step(v: Site, s: System, a: Action): System {
    match a
    case Direct(e) => s.(book := After(s.book, e.now, e.call))
    case Finalize(verified, rid, proof) =>
      var r := FinalizePayment(v, s, verified, rid, proof);
      if r.Ok? then r.value else s
  }

  function SystemRun(v: Site, s: System, actions: seq<Action>): System {
    if actions == [] then s
    else Step(v, SystemRun(v, s, actions[..|actions| - 1]), actions[|actions| - 1])
  }

  function Fresh(config: Config): System {
    System(InitialBook(config), map[])
  }

  predicate Deployed(v: Site, config: Config) {
    config.fdcVerifier == v.self
  }

  // ---- The controller's view of the same run ----

  /** A settlement reaches the controller as one markSettled call; a rejected proof never does. */
  function EventsOf(v: Site, s: System, actions: seq<Action>): seq<Event> {
    if actions == [] then []
    else
      var front, a := actions[..|actions| - 1], actions[|actions| - 1];
      EventsOf(v, s, front) + StepEvents(v, SystemRun(v, s, front), a)
  }

  function StepEvents(v: Site, s: System, a: Action): seq<Event> {
    match a
    case Direct(e) => [e]
    case Finalize(_, rid, proof) =>
      if Settles(v, s, a) then [Event(0, CallMarkSettled(v.self, rid, proof.transactionId))] else []
  }

  lemma RunAppend(b: Book, es: seq<Event>, more: seq<Event>)
    requires |more| <= 1
    ensures Run(b, es + more) == Run(Run(b, es), more)
  {
    if more == [] {
      assert es + more == es;
    } else {
      assert (es + more)[..|es|] == es && more[..0] == [];
    }
  }

  lemma StepProjects(v: Site, s: System, a: Action)
    ensures Step(v, s, a).book == Run(s.book, StepEvents(v, s, a))
  {
    hide SettlementExpectation, CheckAgainstRequest;
    if StepEvents(v, s, a) != [] {
      assert StepEvents(v, s, a)[..0] == [];
    }
  }

  lemma {:induction false} RunProjects(v: Site, s: System, actions: seq<Action>)
    ensures SystemRun(v, s, actions).book == Run(s.book, EventsOf(v, s, actions))
  {
    hide Step, StepEvents, After;
    if actions != [] {
      var front, a := actions[..|actions| - 1], actions[|actions| - 1];
      RunProjects(v, s, front);
      StepProjects(v, SystemRun(v, s, front), a);
      StepEventsShort(v, SystemRun(v, s, front), a);
      RunAppend(s.book, EventsOf(v, s, front), StepEvents(v, SystemRun(v, s, front), a));
    }
  }

  lemma StepEventsShort(v: Site, s: System, a: Action)
    ensures |StepEvents(v, s, a)| <= 1
  {
  }

  // ---- The bijection ----

  predicate IsSettled(b: Book, rid: nat) {
    rid in b.requests && b.requests[rid].state == SETTLED
  }

  /** `settledBy` and the SETTLED requests are each other's inverses, through xrplTxId. */
  ghost predicate Bijection(s: System) {
    && (forall tx :: tx in s.settledBy ==>
          IsSettled(s.book, s.settledBy[tx]) && s.book.requests[s.settledBy[tx]].xrplTxId == tx)
    && (forall rid :: IsSettled(s.book, rid) ==>
          s.book.requests[rid].xrplTxId in s.settledBy && s.settledBy[s.book.requests[rid].xrplTxId] == rid)
  }

  ghost predicate SystemInv(v: Site, s: System) {
    Inv(s.book) && s.book.config.fdcVerifier == v.self && Bijection(s)
  }

  lemma OnlyTheVerifierSettles(v: Site, b: Book, e: Event)
    requires b.config.fdcVerifier == v.self && Possible(v, Direct(e))
    ensures e.call.CallMarkSettled? ==> Perform(b, e.now, e.call).Err?
    ensures Perform(b, e.now, e.call).Err? ==> After(b, e.now, e.call) == b
  {
  }

  lemma NumberedWithin(b: Book, rid: nat)
    requires Numbered(b) && rid in b.requests
    ensures 1 <= rid <= b.requestCount
  {
  }

  lemma TotalGrows(requests: map<nat, Request>, n: nat, tid: nat, bucket: Bucket)
    requires n > 0 && n in requests
    ensures Total(requests, n, tid, bucket) == Total(requests, n - 1, tid, bucket) + Share(requests[n], tid, bucket)
  {
  }

  /** A direct call settles nothing and unsettles nothing. */
  lemma DirectSettlesNothing(v: Site, b: Book, e: Event, rid: nat)
    requires Numbered(b) && b.config.fdcVerifier == v.self && Possible(v, Direct(e))
    ensures IsSettled(After(b, e.now, e.call), rid) <==> IsSettled(b, rid)
    ensures IsSettled(b, rid) ==> After(b, e.now, e.call).requests[rid] == b.requests[rid]
  {
    hide After, Perform, BudgetStep, MovesReserved, Numbered;
    OnlyTheVerifierSettles(v, b, e);
    if Perform(b, e.now, e.call).Ok? {
      if TreasuryCall(e.call) {
        TreasuryCallRewrites(b, e.now, e.call);
      } else if RequestCall(e.call) {
        RequestCallMoves(b, e.now, e.call);
      } else {
        OtherCallAdds(b, e.now, e.call);
      }
    }
  }

  lemma DirectKeepsBijection(v: Site, s: System, e: Event)
    requires Bijection(s) && Numbered(s.book) && s.book.config.fdcVerifier == v.self && Possible(v, Direct(e))
    ensures Bijection(s.(book := After(s.book, e.now, e.call)))
  {
    hide After, Numbered, Possible;
    forall rid ensures IsSettled(After(s.book, e.now, e.call), rid) <==> IsSettled(s.book, rid)
      ensures IsSettled(s.book, rid) ==> After(s.book, e.now, e.call).requests[rid] == s.book.requests[rid] {
      DirectSettlesNothing(v, s.book, e, rid);
    }
  }

  /** What a settlement writes. */
  lemma FinalizeEffect(v: Site, s: System, a: Action)
    requires Settles(v, s, a) && Numbered(s.book)
    ensures a.rid > 0 && a.rid in s.book.requests && a.rid <= s.book.requestCount
    ensures PriorUse(s.settledBy, a.proof.transactionId) == 0
    ensures
      var r := s.book.requests[a.rid];
      && (r.state == SIGNED || r.state == BROADCAST)
      && a.proof.body.receivedAmount == r.amountDrops
      && Step(v, s, a).settledBy == s.settledBy[a.proof.transactionId := a.rid]
      && Step(v, s, a).book == s.book.(requests :=
           s.book.requests[a.rid := r.(xrplTxId := a.proof.transactionId, state := SETTLED)])
  {
  }

  lemma FinalizeKeepsBijection(v: Site, s: System, a: Action)
    requires Settles(v, s, a) && Numbered(s.book) && Bijection(s)
    requires forall tx :: tx in s.settledBy ==> s.settledBy[tx] > 0
    ensures Bijection(Step(v, s, a))
  {
    hide Numbered, Settles, Step;
    FinalizeEffect(v, s, a);
  }

  lemma SettledIdsPositive(s: System)
    requires Numbered(s.book) && Bijection(s)
    ensures forall tx :: tx in s.settledBy ==> s.settledBy[tx] > 0
  {
  }

  lemma StepKeepsSystemInv(v: Site, s: System, a: Action)
    requires SystemInv(v, s) && Possible(v, a)
    ensures SystemInv(v, Step(v, s, a))
  {
    hide Inv, After, Numbered, Bijection, Settles, FinalizePayment;
    InvNumbered(s.book);
    match a
    case Direct(e) =>
      CallKeepsInv(s.book, e.now, e.call);
      ConfigStep(s.book, e.now, e.call);
      DirectKeepsBijection(v, s, e);
    case Finalize(_, _, _) =>
      FinalizeKeepsInv(v, s, a);
  }

  lemma FinalizeKeepsInv(v: Site, s: System, a: Action)
    requires SystemInv(v, s) && a.Finalize?
    ensures SystemInv(v, Step(v, s, a))
  {
    hide Inv, After, Numbered, Bijection, FinalizePayment;
    InvNumbered(s.book);
    if Settles(v, s, a) {
      FinalizeEffect(v, s, a);
      SettledIdsPositive(s);
      FinalizeKeepsBijection(v, s, a);
      var r := s.book.requests[a.rid];
      RewriteKeepsInv(s.book, a.rid, r.(xrplTxId := a.proof.transactionId, state := SETTLED));
    }
  }

  lemma {:induction false} RunKeepsSystemInv(v: Site, s: System, actions: seq<Action>)
    requires SystemInv(v, s) && forall a :: a in actions ==> Possible(v, a)
    ensures SystemInv(v, SystemRun(v, s, actions))
  {
    hide SystemInv, Step, Possible;
    if actions != [] {
      var front, a := actions[..|actions| - 1], actions[|actions| - 1];
      assert forall x :: x in front ==> x in actions;
      assert a in actions;
      RunKeepsSystemInv(v, s, front);
      StepKeepsSystemInv(v, SystemRun(v, s, front), a);
    }
  }

  lemma FreshInv(v: Site, config: Config)
    requires Deployed(v, config)
    ensures SystemInv(v, Fresh(config))
  {
    InitialInv(config);
  }

  /** Settlement bijection, in every reachable state of the two contracts. */
  lemma SettlementBijection(v: Site, config: Config, actions: seq<Action>)
    requires Deployed(v, config) && forall a :: a in actions ==> Possible(v, a)
    ensures Bijection(SystemRun(v, Fresh(config), actions))
  {
    hide Inv, Bijection, SystemRun, Possible;
    FreshInv(v, config);
    RunKeepsSystemInv(v, Fresh(config), actions);
  }

  // ---- Proved spend ----

  /** The sum of received amounts over every proof a run consumed for a treasury. */
  function ReceivedTotal(v: Site, s: System, actions: seq<Action>, tid: nat): nat {
    if actions == [] then 0
    else
      var front, a := actions[..|actions| - 1], actions[|actions| - 1];
      ReceivedTotal(v, s, front, tid) + Received(v, SystemRun(v, s, front), a, tid)
  }

  function Received(v: Site, s: System, a: Action, tid: nat): nat {
    if Settles(v, s, a) && s.book.requests[a.rid].treasuryId == tid then a.proof.body.receivedAmount else 0
  }

  lemma NoShareMoves(r: Request, r': Request, tid: nat)
    requires r.state != SETTLED && r'.state != SETTLED
    ensures Share(r, tid, Settled) == Share(r', tid, Settled) == 0
  {
  }

  lemma DirectKeepsSettledTotal(v: Site, b: Book, e: Event, tid: nat)
    requires Numbered(b) && b.config.fdcVerifier == v.self && Possible(v, Direct(e))
    ensures
      var b' := After(b, e.now, e.call);
      Total(b'.requests, b'.requestCount, tid, Settled) == Total(b.requests, b.requestCount, tid, Settled)
  {
    hide After, Perform, BudgetStep, MovesReserved, Share, SameIdentity, Numbered, Total;
    var b' := After(b, e.now, e.call);
    OnlyTheVerifierSettles(v, b, e);
    if Perform(b, e.now, e.call).Ok? {
      if TreasuryCall(e.call) {
        TreasuryCallRewrites(b, e.now, e.call);
      } else if RequestCall(e.call) {
        RequestCallMoves(b, e.now, e.call);
        var rid := TouchedRequest(e.call);
        NumberedWithin(b, rid);
        TotalUpdate(b.requests, b.requestCount, tid, Settled, rid, b'.requests[rid]);
        NoShareMoves(b.requests[rid], b'.requests[rid], tid);
      } else {
        OtherCallAdds(b, e.now, e.call);
        if b'.requests != b.requests || b'.requestCount != b.requestCount {
          var r := b'.requests[b'.requestCount];
          TotalBeyond(b.requests, b.requestCount, tid, Settled, b'.requestCount, r);
          TotalGrows(b'.requests, b'.requestCount, tid, Settled);
          NoShareMoves(r, r, tid);
        }
      }
    }
  }

  lemma FinalizeAddsReceived(v: Site, s: System, a: Action, tid: nat)
    requires Numbered(s.book) && a.Finalize?
    ensures
      var b, b' := s.book, Step(v, s, a).book;
      Total(b'.requests, b'.requestCount, tid, Settled)
      == Total(b.requests, b.requestCount, tid, Settled) + Received(v, s, a, tid)
  {
    hide Total, Numbered, FinalizePayment;
    if Settles(v, s, a) {
      FinalizeEffect(v, s, a);
      var r := s.book.requests[a.rid];
      TotalUpdate(s.book.requests, s.book.requestCount, tid, Settled, a.rid,
                  r.(xrplTxId := a.proof.transactionId, state := SETTLED));
    }
  }

  lemma {:induction false} ReceivedIsSettled(v: Site, config: Config, actions: seq<Action>, tid: nat)
    requires Deployed(v, config) && forall a :: a in actions ==> Possible(v, a)
    ensures
      var b := SystemRun(v, Fresh(config), actions).book;
      ReceivedTotal(v, Fresh(config), actions, tid) == Total(b.requests, b.requestCount, tid, Settled)
  {
    hide Inv, Bijection, Numbered, Possible, After, FinalizePayment, Settles;
    if actions != [] {
      var front, a := actions[..|actions| - 1], actions[|actions| - 1];
      assert forall x :: x in front ==> x in actions;
      assert a in actions;
      ReceivedIsSettled(v, config, front, tid);
      var s := SystemRun(v, Fresh(config), front);
      FreshInv(v, config);
      RunKeepsSystemInv(v, Fresh(config), front);
      InvNumbered(s.book);
      match a
      case Direct(e) => DirectKeepsSettledTotal(v, s.book, e, tid); NothingReceived(v, s, a, tid);
      case Finalize(_, _, _) => FinalizeAddsReceived(v, s, a, tid);
    }
  }

  lemma NothingReceived(v: Site, s: System, a: Action, tid: nat)
    requires a.Direct?
    ensures Received(v, s, a, tid) == 0
  {
  }

  lemma TotalWithinReserved(b: Book, tid: nat)
    requires Inv(b)
    ensures Total(b.requests, b.requestCount, tid, Settled) <= ReservedOf(b, tid)
  {
    SettledWithinReserved(b.requests, b.requestCount, tid);
    if tid in b.treasuries {
      assert Conserved(b, tid);
    } else {
      NoRequestsYet(b, tid);
      TotalOfNone(b.requests, b.requestCount, tid, Settled);
    }
  }

  /** What was proved spent from a treasury is the sum of its settled amounts, at most what it has
      reserved, at most the largest cap it ever had. */
  lemma ProvedSpendBounded(v: Site, config: Config, actions: seq<Action>, tid: nat)
    requires Deployed(v, config) && forall a :: a in actions ==> Possible(v, a)
    ensures
      var b, b0 := SystemRun(v, Fresh(config), actions).book, InitialBook(config);
      && ReceivedTotal(v, Fresh(config), actions, tid) == Total(b.requests, b.requestCount, tid, Settled)
      && Total(b.requests, b.requestCount, tid, Settled) <= ReservedOf(b, tid)
      && ReservedOf(b, tid) <= HighestCap(b0, EventsOf(v, Fresh(config), actions), tid)
      && b == Run(b0, EventsOf(v, Fresh(config), actions))
  {
    hide Inv, Bijection, Possible, SystemRun, Run, Total, ReservedOf, HighestCap, EventsOf, ReceivedTotal;
    ReceivedIsSettled(v, config, actions, tid);
    FreshInv(v, config);
    RunKeepsSystemInv(v, Fresh(config), actions);
    TotalWithinReserved(SystemRun(v, Fresh(config), actions).book, tid);
    RunProjects(v, Fresh(config), actions);
    ReservedWithinHighestCap(config, EventsOf(v, Fresh(config), actions), tid);
  }

  // ---- One payment, one request ----

  /** A treasury's list is exactly its requests, oldest first, with nonces 1, 2, 3, … */
  lemma ListIsTheRequests(b: Book, tid: nat)
    requires Inv(b)
    ensures
      var ids := RequestsOf(b, tid);
      && (forall rid :: rid in ids <==> rid in b.requests && b.requests[rid].treasuryId == tid)
      && (forall i: nat, j: nat :: i < j < |ids| ==> ids[i] < ids[j])
      && (forall i: nat :: i < |ids| ==> ids[i] in b.requests && b.requests[ids[i]].nonce == i + 1)
  {
    var ids := RequestsOf(b, tid);
    hide Conserved, Numbered, TreasuryOk;
    if tid !in b.treasuries {
      NoRequestsYet(b, tid);
    } else {
      forall i: nat | i < |ids|
        ensures ids[i] in b.requests && b.requests[ids[i]].nonce == i + 1 && b.requests[ids[i]].treasuryId == tid
      {
        assert ListOk(b, tid) && EntryOk(b, tid, i);
      }
      forall i: nat, j: nat | i < j < |ids| ensures ids[i] < ids[j] {
        assert ListOk(b, tid) && EntryOk(b, tid, i) && EntryOk(b, tid, j);
      }
      forall rid | rid in b.requests && b.requests[rid].treasuryId == tid ensures rid in ids {
        assert RequestOk(b, rid);
      }
    }
  }

  /** Memo references name their requests. */
  lemma MemoRefsDistinct(b: Book, rid: nat, other: nat)
    requires Inv(b) && rid in b.requests && other in b.requests
    requires b.requests[rid].memoRef == b.requests[other].memoRef
    ensures rid == other
  {
    hide TreasuryOk, Conserved, ListOk, Numbered;
    assert RequestOk(b, rid) && RequestOk(b, other);
  }

  /** No two references in use are the same 32 bytes: the only collision that would matter. */
  ghost predicate WordsDistinct(b: Book, word: Bytes32 -> Word32) {
    forall rid, other :: rid in b.requests && other in b.requests
      && word(b.requests[rid].memoRef) == word(b.requests[other].memoRef)
      ==> b.requests[rid].memoRef == b.requests[other].memoRef
  }

  lemma MemoDeterminesRequest(b: Book, word: Bytes32 -> Word32, rid: nat, other: nat)
    requires Inv(b) && WordsDistinct(b, word) && rid in b.requests && other in b.requests
    requires EncodeMemo(word, b.requests[rid].memoRef) == EncodeMemo(word, b.requests[other].memoRef)
    ensures rid == other
  {
    var m, n := EncodeMemo(word, b.requests[rid].memoRef), EncodeMemo(word, b.requests[other].memoRef);
    assert m[4..] == word(b.requests[rid].memoRef) && n[4..] == word(b.requests[other].memoRef);
    hide Inv;
    MemoRefsDistinct(b, rid, other);
  }

  /** No response body matches two requests. */
  lemma OneBodyOneRequest(b: Book, word: Bytes32 -> Word32, rid: nat, other: nat, body: ResponseBody)
    requires Inv(b) && WordsDistinct(b, word)
    requires CheckAgainstRequest(b, word, rid, body).None? && CheckAgainstRequest(b, word, other, body).None?
    ensures rid == other
  {
    hide Inv, WordsDistinct;
    MemoDeterminesRequest(b, word, rid, other);
  }
}
