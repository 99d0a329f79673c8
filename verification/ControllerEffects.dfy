/** What an accepted call writes, record by record: one request, one treasury, the flag, the log. */
module ControllerEffects {
  import opened Protocol
  import opened Books
  import opened BookInvariant
  import opened BookRuns
  import opened BookTerms

  /** The request a call's outcome is about, if it is about an existing one. */
  predicate About(c: Call, rid: nat) {
    match c
    case CallSubmitAuthorization(res) => res.body.Authorization? && res.body.requestId == rid
    case CallSubmitSignedPayment(res) => res.body.SignedPayment? && res.body.requestId == rid
    case CallReportBroadcast(k, _) => k == rid
    case CallMarkSettled(_, k, _) => k == rid
    case CallCancelRequest(_, k) => k == rid
    case CallExpireRequest(k) => k == rid
    case CallSubmitFailure(res) => res.body.Failure? && res.body.requestId == rid
    case _ => false
  }

  /** The request's record after the call: its terms from the authorization, its blob and predicted id
      from the signature, its transaction id from whoever reports or proves it, nothing else. */
  function RequestAfter(c: Call, rid: nat, r: Request): Request {
    if !About(c, rid) then r
    else
      match c
      case CallSubmitAuthorization(res) =>
        r.(amountDrops := res.body.amountDrops, destinationHash := res.body.destinationHash, state := AUTHORIZED)
      case CallSubmitSignedPayment(res) =>
        r.(expectedTxId := res.body.expectedTxId, signedBlobHash := Keccak(Data(res.body.signedTxBlob)), state := SIGNED)
      case CallReportBroadcast(_, txId) => r.(xrplTxId := txId, state := BROADCAST)
      case CallMarkSettled(_, _, txId) => r.(xrplTxId := txId, state := SETTLED)
      case CallCancelRequest(_, _) => r.(state := CANCELLED)
      case CallExpireRequest(_) => r.(state := EXPIRED)
      case CallSubmitFailure(_) => r.(state := FAILED)
      case _ => r
  }

  /** What a request holds of its treasury's budget. */
  function Held(r: Request): nat {
    if r.state == CREATED then 0 else r.amountDrops
  }

  /** What ending, or authorizing, a request of this treasury does to its reserved counter. */
  function ReservedAfter(b: Book, c: Call, tid: nat, reserved: nat): int {
    var rid := TouchedRequest(c);
    if rid !in b.requests || b.requests[rid].treasuryId != tid then reserved
    else if AuthorizesFor(b, c, tid) then reserved + c.res.body.amountDrops
    else if EndingCall(c) then reserved - Held(b.requests[rid])
    else reserved
  }

  /** A treasury's record after the call. */
  ghost predicate TreasuryAfter(b: Book, c: Call, tid: nat, t: Treasury, t': Treasury) {
    && t'.reservedDrops == ReservedAfter(b, c, tid, t.reservedDrops)
    && var same := t'.(reservedDrops := t.reservedDrops);
       match c
       case CallBind(res) =>
         same == if res.body.Bind? && res.body.treasuryId == tid then
           t.(xrplAddress := res.body.xrplAddress, xrplAddressHash := Keccak(Text(res.body.xrplAddress)), bound := true) else t
       case CallRequestPolicyUpdate(_, k, p) =>
         same == if k == tid then t.(pendingPolicyCommitment := Keccak(PolicyEncoding(p))) else t
       case CallConfirmPolicy(res) =>
         same == if res.body.Confirm? && res.body.treasuryId == tid then
           t.(policy := res.body.policy, policyCommitment := Keccak(PolicyEncoding(res.body.policy)), pendingPolicyCommitment := Zero)
           else t
       case CallSetTreasuryPaused(_, k, flag) => same == if k == tid then t.(paused := flag) else t
       case CallCreatePaymentRequest(_, k, _) => same == t.(nextNonce := same.nextNonce) && same.nextNonce == t.nextNonce + (if k == tid then 1 else 0)
       case _ => same == t
  }

  lemma ReleaseWrites(b: Book, rid: nat, final: RequestState, tid: nat)
    requires rid in b.requests && Release(b, rid, final).Ok?
    ensures
      var b', r := Release(b, rid, final).value, b.requests[rid];
      && b' == b.(requests := b'.requests, treasuries := b'.treasuries) && b'.treasuries.Keys == b.treasuries.Keys
      && b'.requests == b.requests[rid := r.(state := final)]
      && (tid in b.treasuries ==> (
            && b'.treasuries[tid] == b.treasuries[tid].(reservedDrops := b'.treasuries[tid].reservedDrops)
            && b'.treasuries[tid].reservedDrops
               == b.treasuries[tid].reservedDrops - (if r.treasuryId == tid then Held(r) else 0)))
  {
  }

  /** A call on existing records writes those it is about. */
  ghost predicate WritesOnly(b: Book, c: Call, b': Book) {
    && OtherWrites(b, c, b')
    && forall tid :: tid in b.treasuries ==> TreasuryAfter(b, c, tid, b.treasuries[tid], b'.treasuries[tid])
  }

  lemma ReleaseWritesOnly(b: Book, c: Call, rid: nat, final: RequestState)
    requires EndingCall(c) && rid in b.requests && Release(b, rid, final).Ok?
    requires TouchedRequest(c) == rid && forall k :: About(c, k) <==> k == rid
    requires RequestAfter(c, rid, b.requests[rid]) == b.requests[rid].(state := final)
    ensures WritesOnly(b, c, Release(b, rid, final).value)
  {
    hide Release, Held, About;
    ReleaseWrites(b, rid, final, 0);
    forall tid | tid in b.treasuries
      ensures TreasuryAfter(b, c, tid, b.treasuries[tid], Release(b, rid, final).value.treasuries[tid])
    {
      ReleaseWrites(b, rid, final, tid);
    }
  }

  lemma EndingCallWrites(b: Book, now: nat, c: Call)
    requires EndingCall(c) && Perform(b, now, c).Ok?
    ensures WritesOnly(b, c, After(b, now, c))
  {
    hide BoundHere, Release, WritesOnly;
    match c
    case CallCancelRequest(_, rid) => ReleaseWritesOnly(b, c, rid, CANCELLED);
    case CallExpireRequest(rid) => ReleaseWritesOnly(b, c, rid, EXPIRED);
    case CallSubmitFailure(res) => ReleaseWritesOnly(b, c, res.body.requestId, FAILED);
  }

  lemma TreasuryCallWrites(b: Book, now: nat, c: Call, tid: nat)
    requires TreasuryCall(c) && Perform(b, now, c).Ok? && tid in b.treasuries
    ensures
      var b' := After(b, now, c);
      tid in b'.treasuries && TreasuryAfter(b, c, tid, b.treasuries[tid], b'.treasuries[tid])
  {
    hide BoundHere, ValidPolicy, TreasuryHeader;
  }

  lemma RequestCallWrites(b: Book, now: nat, c: Call, tid: nat)
    requires RequestCall(c) && !EndingCall(c) && Perform(b, now, c).Ok? && tid in b.treasuries
    ensures
      var b' := After(b, now, c);
      tid in b'.treasuries && TreasuryAfter(b, c, tid, b.treasuries[tid], b'.treasuries[tid])
  {
    hide BoundHere;
  }

  /** The rest of what it leaves and writes. */
  ghost predicate OtherWrites(b: Book, c: Call, b': Book) {
    && b'.requests.Keys == b.requests.Keys && b'.treasuries.Keys == b.treasuries.Keys
    && (forall rid :: rid in b.requests ==> b'.requests[rid] == RequestAfter(c, rid, b.requests[rid]))
    && b' == b.(requests := b'.requests, treasuries := b'.treasuries, paused := b'.paused, sent := b'.sent)
    && (b'.paused == if c.CallSetPaused? then c.flag else b.paused)
  }

  lemma CallOtherWrites(b: Book, now: nat, c: Call)
    requires TreasuryCall(c) || (RequestCall(c) && !EndingCall(c))
    requires Perform(b, now, c).Ok?
    ensures OtherWrites(b, c, After(b, now, c))
  {
    hide BoundHere, ValidPolicy, TreasuryHeader;
  }

  /** A call on existing records writes those it is about, as specified, and no others. */
  lemma CallWrites(b: Book, now: nat, c: Call)
    requires TreasuryCall(c) || RequestCall(c) || c.CallSetPaused? || c.CallRequestSignature?
    requires Perform(b, now, c).Ok?
    ensures WritesOnly(b, c, After(b, now, c))
  {
    if EndingCall(c) {
      hide *;
      EndingCallWrites(b, now, c);
    } else if TreasuryCall(c) || RequestCall(c) {
      hide After, Perform, TreasuryAfter, RequestAfter;
      CallOtherWrites(b, now, c);
      forall tid | tid in b.treasuries
        ensures TreasuryAfter(b, c, tid, b.treasuries[tid], After(b, now, c).treasuries[tid])
      {
        if TreasuryCall(c) {
          TreasuryCallWrites(b, now, c, tid);
        } else {
          RequestCallWrites(b, now, c, tid);
        }
      }
    } else {
      hide BoundHere, Release, TreasuryHeader, RequestHeader;
    }
  }

  /** A new treasury: its creator's, with the policy asked for, unbound, nothing reserved. */
  lemma CreateTreasuryWrites(b: Book, now: nat, c: Call)
    requires c.CallCreateTreasury? && Perform(b, now, c).Ok?
    ensures
      var b' := After(b, now, c);
      b' == b.(treasuryCount := b.treasuryCount + 1, sent := b'.sent, treasuries := b.treasuries[b.treasuryCount + 1 :=
        Treasury(c.sender, "", Zero, c.policy, Keccak(PolicyEncoding(c.policy)), Zero, 0, 1, false, false)])
  {
    hide ValidPolicy, TreasuryHeader;
  }

  /** The record of a new request. */
  ghost predicate Opened(b: Book, now: nat, c: Call, rid: nat, r: Request) {
    && c.CallCreatePaymentRequest? && rid == b.requestCount + 1 && c.tid in b.treasuries
    && var t := b.treasuries[c.tid];
       && r.treasuryId == c.tid && r.requester == c.sender == t.owner && r.nonce == t.nextNonce
       && r.createdAt == now % 0x1_0000_0000_0000_0000 && r.expiresAt == r.createdAt + t.policy.requestTtlSeconds
       && r.payloadHash == Keccak(Data(c.payload))
       && r.memoRef == Keccak(MemoEncoding(b.config.chainId, b.config.self, c.tid, rid, t.nextNonce))
  }

  predicate Blank(r: Request) {
    r.amountDrops == 0 && r.destinationHash == r.expectedTxId == r.signedBlobHash == r.xrplTxId == Zero && r.state == CREATED
  }

  lemma CreateRequestWrites(b: Book, now: nat, c: Call)
    requires c.CallCreatePaymentRequest? && Perform(b, now, c).Ok?
    ensures
      var b', rid := After(b, now, c), b.requestCount + 1;
      && rid in b'.requests && Opened(b, now, c, rid, b'.requests[rid]) && Blank(b'.requests[rid])
      && b' == b.(requestCount := rid, requests := b.requests[rid := b'.requests[rid]], sent := b'.sent,
                  treasuries := b'.treasuries,
                  treasuryRequests := b.treasuryRequests[c.tid := RequestsOf(b, c.tid) + [rid]])
      && b'.treasuries.Keys == b.treasuries.Keys
      && (forall tid :: tid in b.treasuries ==> TreasuryAfter(b, c, tid, b.treasuries[tid], b'.treasuries[tid]))
  {
    hide RequestHeader;
  }

  // ---- One accepted call, seen from one record ----

  lemma RequestWritten(b: Book, now: nat, c: Call, rid: nat)
    requires Numbered(b) && Perform(b, now, c).Ok? && rid in After(b, now, c).requests
    ensures
      var b' := After(b, now, c);
      if rid in b.requests then b'.requests[rid] == RequestAfter(c, rid, b.requests[rid])
      else Opened(b, now, c, rid, b'.requests[rid]) && Blank(b'.requests[rid])
  {
    hide After, Perform, RequestAfter, TreasuryAfter, Opened, Blank;
    if c.CallCreatePaymentRequest? {
      CreateRequestWrites(b, now, c);
      NotAbout(c, rid);
    } else if c.CallCreateTreasury? {
      CreateTreasuryWrites(b, now, c);
      NotAbout(c, rid);
    } else {
      CallWrites(b, now, c);
    }
  }

  lemma NotAbout(c: Call, rid: nat)
    ensures c.CallCreateTreasury? || c.CallCreatePaymentRequest? ==> forall r :: RequestAfter(c, rid, r) == r
  {
  }

  lemma TreasuryWritten(b: Book, now: nat, c: Call, tid: nat)
    requires Numbered(b) && Perform(b, now, c).Ok? && tid in After(b, now, c).treasuries
    ensures
      var b' := After(b, now, c);
      if tid in b.treasuries then TreasuryAfter(b, c, tid, b.treasuries[tid], b'.treasuries[tid])
      else
        && c.CallCreateTreasury? && tid == b.treasuryCount + 1
        && b'.treasuries[tid] == Treasury(c.sender, "", Zero, c.policy, Keccak(PolicyEncoding(c.policy)), Zero, 0, 1, false, false)
  {
    hide After, Perform, RequestAfter;
    if c.CallCreatePaymentRequest? {
      hide TreasuryAfter, Opened;
      CreateRequestWrites(b, now, c);
    } else if c.CallCreateTreasury? {
      CreateTreasuryWrites(b, now, c);
      assert TouchedRequest(c) == 0;
    } else {
      hide TreasuryAfter;
      CallWrites(b, now, c);
    }
  }

  lemma FlagWritten(b: Book, now: nat, c: Call)
    requires Perform(b, now, c).Ok?
    ensures After(b, now, c).paused == if c.CallSetPaused? then c.flag else b.paused
  {
    hide After, Perform, RequestAfter, TreasuryAfter, Opened;
    if c.CallCreatePaymentRequest? {
      CreateRequestWrites(b, now, c);
    } else if c.CallCreateTreasury? {
      CreateTreasuryWrites(b, now, c);
    } else {
      CallWrites(b, now, c);
    }
  }

  // ---- Instructions ----

  /** The instruction names this contract and the treasury, the request as recorded, and the commitment of
      the policy in question; any fee refund goes to the sender. */
  ghost predicate Announces(b': Book, c: Call, i: Instruction) {
    && i.header.chainId == b'.config.chainId && i.header.controller == b'.config.self
    && match c
       case CallCreateTreasury(sender, p) =>
         && i.claimBack == sender && i.command == Command.CreateTreasuryKey(p)
         && ForTreasury(i.header, b'.treasuryCount, p)
       case CallRequestPolicyUpdate(sender, tid, p) =>
         && i.claimBack == sender && i.command == RegisterPolicy(p) && ForTreasury(i.header, tid, p)
       case CallCreatePaymentRequest(sender, tid, payload) =>
         && i.claimBack == sender && i.command == AuthorizePayment(payload)
         && ForRequest(b', i.header, b'.requestCount)
       case CallRequestSignature(sender, rid) =>
         && i.claimBack == sender && i.command == SignXrplPayment && ForRequest(b', i.header, rid)
       case _ => false
  }

  ghost predicate ForTreasury(h: Header, tid: nat, p: Policy) {
    && h.treasuryId == tid && h.requestId == 0 && h.nonce == 0 && h.expiresAt == 0 && h.memoRef == Zero
    && h.policyCommitment == Keccak(PolicyEncoding(p))
  }

  ghost predicate ForRequest(b: Book, h: Header, rid: nat) {
    && HeaderFor(b, h) && h.requestId == rid && h.treasuryId in b.treasuries
    && h.policyCommitment == Keccak(PolicyEncoding(b.treasuries[h.treasuryId].policy))
  }

  /** An accepted call sends one instruction if it starts something, and none otherwise. */
  ghost predicate SendsAsDue(b: Book, c: Call, b': Book) {
    if Starts(c) then
      |b'.sent| == |b.sent| + 1 && b.sent == b'.sent[..|b.sent|] && Announces(b', c, b'.sent[|b.sent|])
    else b'.sent == b.sent
  }

  lemma StartingCallSends(b: Book, now: nat, c: Call)
    requires Perform(b, now, c).Ok? && Starts(c)
    requires forall tid :: tid in b.treasuries ==> b.treasuries[tid].policyCommitment == PolicyCommitment(b.treasuries[tid].policy)
    ensures SendsAsDue(b, c, After(b, now, c))
  {
    hide ValidPolicy;
  }

  lemma OtherCallSends(b: Book, now: nat, c: Call)
    requires Perform(b, now, c).Ok? && !Starts(c)
    ensures SendsAsDue(b, c, After(b, now, c))
  {
    hide ValidPolicy, BoundHere, Release;
    if EndingCall(c) {
      EndingCallSends(b, now, c);
    }
  }

  lemma CommitmentsMatch(b: Book)
    requires Inv(b)
    ensures forall tid :: tid in b.treasuries ==> b.treasuries[tid].policyCommitment == PolicyCommitment(b.treasuries[tid].policy)
  {
    hide Numbered, Conserved, ListOk, RequestOk, ValidPolicy;
  }

  lemma CallSendsAsDue(b: Book, now: nat, c: Call)
    requires Inv(b) && Perform(b, now, c).Ok?
    ensures SendsAsDue(b, c, After(b, now, c))
  {
    hide *;
    if Starts(c) {
      CommitmentsMatch(b);
      StartingCallSends(b, now, c);
    } else {
      OtherCallSends(b, now, c);
    }
  }
}
