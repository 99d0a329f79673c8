/** The happenings a history is made of, one at a time: from what state each succeeds and exactly what
    it leaves. Scenarios and the completion theorem put them together. */
module Progress {
  import opened Wrappers
  import opened Bytes
  import opened Protocol
  import opened ClassicAddress
  import opened XrplFields
  import opened Payments
  import opened PaymentRoundTrip
  import opened Books
  import BookTerms
  import Settlement
  import opened EnclaveState
  import opened EnclaveRuns
  import opened World
  import opened Signings

  // ---- Longer histories ----

  ghost function Grow(net: Net, tr: Trace, e: Happening): Trace
    requires |tr.states| > 0
  {
    Trace(tr.states + [Next(net, Last(tr), e)], tr.happenings + [e])
  }

  ghost function GrantTotal(net: Net, tr: Trace, rid: nat): nat {
    GrantCount(net, tr, rid, |tr.happenings|)
  }

  ghost function SigningTotal(net: Net, tr: Trace, rid: nat): nat {
    SigningCount(net, tr, rid, |tr.happenings|)
  }

  /** One history continues another. */
  predicate Continues(tr: Trace, tr': Trace) {
    tr.states <= tr'.states && tr.happenings <= tr'.happenings
  }

  lemma GrowsTrace(net: Net, config: Config, tr: Trace, e: Happening)
    requires TraceOf(net, config, tr)
    ensures TraceOf(net, config, Grow(net, tr, e)) && Last(Grow(net, tr, e)) == Next(net, Last(tr), e)
    ensures Continues(tr, Grow(net, tr, e))
  {
    hide Next;
    var longer := Grow(net, tr, e);
    forall i: nat ensures Follows(net, longer, i) {
      assert Follows(net, tr, i);
    }
  }

  lemma {:induction false} CountsKept(net: Net, tr: Trace, e: Happening, rid: nat, n: nat)
    requires |tr.states| == |tr.happenings| + 1 && n <= |tr.happenings|
    ensures GrantCount(net, Grow(net, tr, e), rid, n) == GrantCount(net, tr, rid, n)
    ensures SigningCount(net, Grow(net, tr, e), rid, n) == SigningCount(net, tr, rid, n)
  {
    hide Next, GrantsNow, SignsNow;
    if n > 0 {
      CountsKept(net, tr, e, rid, n - 1);
    }
  }

  lemma GrowsCounts(net: Net, tr: Trace, e: Happening, rid: nat)
    requires |tr.states| == |tr.happenings| + 1
    ensures GrantTotal(net, Grow(net, tr, e), rid) == GrantTotal(net, tr, rid) + (if GrantsNow(net, Last(tr), e, rid) then 1 else 0)
    ensures SigningTotal(net, Grow(net, tr, e), rid) == SigningTotal(net, tr, rid) + (if SignsNow(net, Last(tr), e, rid) then 1 else 0)
  {
    hide Next, GrantsNow, SignsNow;
    CountsKept(net, tr, e, rid, |tr.happenings|);
  }

  // ---- Calls ----

  function SetBook(s: State, b: Book): State {
    s.(system := s.system.(book := b))
  }

  /** A call that is possible and accepted moves the controller, and nothing else. */
  lemma CallNext(net: Net, s: State, c: Call, b: Book)
    requires World.Possible(net, s, Chain(c)) && Perform(s.system.book, s.clock, c) == Ok(b)
    ensures Next(net, s, Chain(c)) == SetBook(s, b)
  {
    hide Perform, Authentic, Settlement.Possible;
  }

  lemma OwnerMayCall(net: Net, s: State, c: Call)
    requires !c.CallMarkSettled? && BookTerms.ResultOf(c) == None
    ensures World.Possible(net, s, Chain(c))
  {
  }

  function Genuine(config: Config, body: ResultBody): TeeResult {
    TeeResult(body, 1, config.teeAddress)
  }

  /** What the enclave has emitted anyone may submit. */
  lemma AnyoneMaySubmit(net: Net, s: State, c: Call, body: ResultBody)
    requires body in s.emitted && !c.CallMarkSettled?
    requires BookTerms.ResultOf(c) == Some(Genuine(s.system.book.config, body))
    ensures World.Possible(net, s, Chain(c))
  {
  }

  /** The controller is deployed and running. */
  predicate Running(b: Book) {
    !b.paused && b.config.teeAddress != 0 && b.config.extensionId != 0 && b.config.self != 0
  }

  /** A bound treasury, open for payments, with the same policy on both sides. */
  predicate Active(s: State, tid: nat) {
    var b, v := s.system.book, s.vault;
    && Running(b) && tid in b.treasuries && tid in v.treasuries
    && b.treasuries[tid].bound && !b.treasuries[tid].paused
    && v.treasuries[tid].policy == b.treasuries[tid].policy
    && v.treasuries[tid].policyCommitment == b.treasuries[tid].policyCommitment
  }

  /** One payment: its treasury, the request it will be, the ciphertext and what it decrypts to. */
  datatype Plan = Plan(tid: nat, rid: nat, ciphertext: seq<byte>, terms: PaymentInstruction)

  /** The payload names this very request and pays an allowed amount to somebody else. */
  ghost predicate Allowed(net: Net, s: State, p: Plan) {
    var config := s.system.book.config;
    && p.ciphertext != [] && net.crypto.decrypt(p.ciphertext) == Some(p.terms)
    && p.terms.chainId == config.chainId && p.terms.controller == config.self
    && p.terms.treasuryId == p.tid && p.terms.requestId == p.rid
    && p.tid in s.vault.treasuries && p.tid in s.system.book.treasuries
    && DecodeAddress(net.crypto.checksum, p.terms.destination).Ok?
    && p.terms.destination != s.vault.treasuries[p.tid].address
    && 0 < p.terms.amountDrops <= MAX_DROPS
    && p.terms.amountDrops <= s.system.book.treasuries[p.tid].policy.maxPerPaymentDrops
    && p.terms.amountDrops + s.system.book.treasuries[p.tid].reservedDrops <= s.system.book.treasuries[p.tid].policy.maxTotalDrops
    && p.terms.amountDrops + s.system.book.treasuries[p.tid].reservedDrops < LIMIT_256
  }

  /** No counter or deadline is about to run out. */
  predicate InBounds(s: State, tid: nat) {
    var b := s.system.book;
    tid in b.treasuries && b.requestCount + 1 < LIMIT_256 && b.treasuries[tid].nextNonce + 1 < LIMIT_64
    && s.clock + b.treasuries[tid].policy.requestTtlSeconds < LIMIT_64
  }

  // ---- Asking for a payment ----

  function NewRequest(s: State, p: Plan): Request
    requires InBounds(s, p.tid)
  {
    var b := s.system.book;
    var t := b.treasuries[p.tid];
    Request(p.tid, t.owner, t.nextNonce, s.clock, s.clock + t.policy.requestTtlSeconds, HashData(p.ciphertext),
            MemoRef(b.config.chainId, b.config.self, p.tid, p.rid, t.nextNonce), 0, Zero, Zero, Zero, Zero, CREATED)
  }

  function AskInstruction(s: State, p: Plan): Instruction
    requires InBounds(s, p.tid)
  {
    var t := s.system.book.treasuries[p.tid];
    Instruction(RequestHeader(s.system.book, p.rid, NewRequest(s, p), t.policyCommitment), AuthorizePayment(p.ciphertext), t.owner)
  }

  function AskedBook(s: State, p: Plan): Book
    requires InBounds(s, p.tid)
  {
    var b := s.system.book;
    var t := b.treasuries[p.tid];
    b.(requestCount := p.rid, requests := b.requests[p.rid := NewRequest(s, p)],
       treasuries := b.treasuries[p.tid := t.(nextNonce := t.nextNonce + 1)],
       treasuryRequests := b.treasuryRequests[p.tid := RequestsOf(b, p.tid) + [p.rid]],
       sent := b.sent + [AskInstruction(s, p)])
  }

  function AskCall(s: State, p: Plan): Call
    requires InBounds(s, p.tid)
  {
    CallCreatePaymentRequest(s.system.book.treasuries[p.tid].owner, p.tid, p.ciphertext)
  }

  lemma Asks(net: Net, s: State, p: Plan)
    requires Active(s, p.tid) && InBounds(s, p.tid) && p.ciphertext != [] && p.rid == s.system.book.requestCount + 1
    ensures Next(net, s, Chain(AskCall(s, p))) == SetBook(s, AskedBook(s, p))
  {
    assert s.clock % LIMIT_64 == s.clock;
    assert Perform(s.system.book, s.clock, AskCall(s, p)) == Ok(AskedBook(s, p));
    hide Active, InBounds, AskedBook, Perform, Next, World.Possible;
    OwnerMayCall(net, s, AskCall(s, p));
    CallNext(net, s, AskCall(s, p), AskedBook(s, p));
  }

  // ---- The authorization ----

  function GrantedFor(h: Header, p: Plan): StoredAuthorization
    requires p.terms.amountDrops <= MAX_DROPS
  {
    StoredAuthorization(p.tid, p.terms.destination, p.terms.amountDrops, p.terms.destinationTag, p.terms.hasDestinationTag,
                        h.memoRef, h.expiresAt, HashData(p.ciphertext))
  }

  function GrantBody(h: Header, p: Plan): ResultBody {
    Authorization(h.chainId, h.controller, p.rid, h.memoRef, p.terms.amountDrops, HashText(p.terms.destination), HashData(p.ciphertext))
  }

  /** The instruction at this place asks for this payment. */
  predicate AsksFor(s: State, i: nat, p: Plan) {
    && i < |s.system.book.sent|
    && var instruction := s.system.book.sent[i];
       && instruction.command == AuthorizePayment(p.ciphertext)
       && instruction.header.treasuryId == p.tid && instruction.header.requestId == p.rid
       && instruction.header.chainId == s.system.book.config.chainId && instruction.header.controller == s.system.book.config.self
       && p.tid in s.vault.treasuries && instruction.header.policyCommitment == s.vault.treasuries[p.tid].policyCommitment
  }

  /** The enclave's state after a delivery; only these parts move. */
  ghost predicate Delivered(s: State, s': State, vault: Vault, body: ResultBody) {
    && s'.system == s.system && s'.clock == s.clock && s'.jobs == s.jobs && s'.signings == s.signings
    && s'.vault == vault && s.emitted <= s'.emitted && body in s'.emitted
  }

  lemma DeliverNext(net: Net, s: State, i: nat, key: Option<SigningKey>, vault: Vault, body: ResultBody)
    requires i < |s.system.book.sent| && !s.system.book.sent[i].command.SignXrplPayment?
    requires Handle(net.crypto, s.vault, s.system.book.sent[i], Input(key, true, None, None, s.clock)) == Handled(vault, Ok(body))
    ensures Delivered(s, Next(net, s, Deliver(i, key, true)), vault, body)
  {
    hide Handle, PoliciesOf;
  }

  lemma GrantsPayment(net: Net, s: State, i: nat, p: Plan)
    requires Active(s, p.tid) && Allowed(net, s, p) && AsksFor(s, i, p)
    ensures
      var h := s.system.book.sent[i].header;
      && GrantsNow(net, s, Deliver(i, None, true), p.rid)
      && Delivered(s, Next(net, s, Deliver(i, None, true)),
                   s.vault.(authorizations := s.vault.authorizations[p.rid := GrantedFor(h, p)]), GrantBody(h, p))
  {
    GrantHandled(net, s, i, p);
    hide Active, Allowed, Handle, Next, Delivered;
    var h := s.system.book.sent[i].header;
    DeliverNext(net, s, i, None, s.vault.(authorizations := s.vault.authorizations[p.rid := GrantedFor(h, p)]), GrantBody(h, p));
  }

  lemma GrantHandled(net: Net, s: State, i: nat, p: Plan)
    requires Active(s, p.tid) && Allowed(net, s, p) && AsksFor(s, i, p)
    ensures
      var h := s.system.book.sent[i].header;
      Handle(net.crypto, s.vault, s.system.book.sent[i], Input(None, true, None, None, s.clock))
      == Handled(s.vault.(authorizations := s.vault.authorizations[p.rid := GrantedFor(h, p)]), Ok(GrantBody(h, p)))
  {
    hide DecodeAddress, SignJob;
  }

  /** A request waiting for this payment's authorization. */
  predicate Waits(s: State, p: Plan, h: Header) {
    var b := s.system.book;
    && p.rid in b.requests && b.requests[p.rid].state == CREATED && b.requests[p.rid].treasuryId == p.tid
    && s.clock <= b.requests[p.rid].expiresAt && b.requests[p.rid].memoRef == h.memoRef
    && b.requests[p.rid].payloadHash == HashData(p.ciphertext)
    && h.chainId == b.config.chainId && h.controller == b.config.self
  }

  function AuthorizedBook(s: State, p: Plan): Book
    requires p.rid in s.system.book.requests && s.system.book.requests[p.rid].treasuryId in s.system.book.treasuries
  {
    var b := s.system.book;
    var r := b.requests[p.rid];
    Put(b, p.rid, r.(amountDrops := p.terms.amountDrops, destinationHash := HashText(p.terms.destination), state := AUTHORIZED),
        b.treasuries[r.treasuryId].reservedDrops + p.terms.amountDrops)
  }

  function GrantCall(s: State, h: Header, p: Plan): Call {
    CallSubmitAuthorization(Genuine(s.system.book.config, GrantBody(h, p)))
  }

  lemma SubmitsGrant(net: Net, s: State, p: Plan, h: Header)
    requires Running(s.system.book) && Allowed(net, s, p) && Waits(s, p, h) && GrantBody(h, p) in s.emitted
    ensures Next(net, s, Chain(GrantCall(s, h, p))) == SetBook(s, AuthorizedBook(s, p))
  {
    GrantAccepted(net, s, p, h);
    hide Allowed, AuthorizedBook, Perform, Next, World.Possible;
    AnyoneMaySubmit(net, s, GrantCall(s, h, p), GrantBody(h, p));
    CallNext(net, s, GrantCall(s, h, p), AuthorizedBook(s, p));
  }

  lemma GrantAccepted(net: Net, s: State, p: Plan, h: Header)
    requires Running(s.system.book) && Allowed(net, s, p) && Waits(s, p, h)
    ensures Perform(s.system.book, s.clock, GrantCall(s, h, p)) == Ok(AuthorizedBook(s, p))
  {
    hide DecodeAddress;
  }

  // ---- The signature ----

  /** The request is authorized, in time, and its authorization is in hand with terms that can be signed. */
  ghost predicate Signable(net: Net, s: State, rid: nat) {
    var b, v := s.system.book, s.vault;
    && Running(b) && rid in b.requests && b.requests[rid].state == AUTHORIZED && s.clock <= b.requests[rid].expiresAt
    && b.requests[rid].treasuryId in b.treasuries && !b.treasuries[b.requests[rid].treasuryId].paused
    && rid in v.authorizations && CanSign(net, v.authorizations[rid])
    && v.authorizations[rid].treasuryId == b.requests[rid].treasuryId && v.authorizations[rid].treasuryId in v.treasuries
    && v.authorizations[rid].memoRef == b.requests[rid].memoRef
  }

  ghost predicate CanSign(net: Net, auth: StoredAuthorization) {
    DecodeAddress(net.crypto.checksum, auth.destination).Ok? && 0 < auth.amountDrops <= MAX_DROPS
  }

  function SignInstruction(s: State, rid: nat): Instruction
    requires rid in s.system.book.requests && s.system.book.requests[rid].treasuryId in s.system.book.treasuries
  {
    var b := s.system.book;
    var r := b.requests[rid];
    var t := b.treasuries[r.treasuryId];
    Instruction(RequestHeader(b, rid, r, t.policyCommitment), SignXrplPayment, t.owner)
  }

  function SignCall(s: State, rid: nat): Call
    requires rid in s.system.book.requests && s.system.book.requests[rid].treasuryId in s.system.book.treasuries
  {
    CallRequestSignature(s.system.book.treasuries[s.system.book.requests[rid].treasuryId].owner, rid)
  }

  lemma AsksToSign(net: Net, s: State, rid: nat)
    requires Signable(net, s, rid)
    ensures Next(net, s, Chain(SignCall(s, rid))) == SetBook(s, s.system.book.(sent := s.system.book.sent + [SignInstruction(s, rid)]))
  {
    hide CanSign;
    var b := s.system.book.(sent := s.system.book.sent + [SignInstruction(s, rid)]);
    assert Perform(s.system.book, s.clock, SignCall(s, rid)) == Ok(b);
    hide Perform, Next, World.Possible, Running;
    OwnerMayCall(net, s, SignCall(s, rid));
    CallNext(net, s, SignCall(s, rid), b);
  }

  /** The instruction at this place asks for this request's signature. */
  predicate AsksSignature(s: State, i: nat, rid: nat) {
    && i < |s.system.book.sent| && rid in s.system.book.requests
    && var instruction := s.system.book.sent[i];
       && instruction.command == SignXrplPayment && instruction.header.requestId == rid
       && instruction.header.treasuryId == s.system.book.requests[rid].treasuryId
       && instruction.header.memoRef == s.system.book.requests[rid].memoRef
       && instruction.header.chainId == s.system.book.config.chainId && instruction.header.controller == s.system.book.config.self
  }

  function JobFor(s: State, i: nat, rid: nat): Job
    requires i < |s.system.book.sent| && rid in s.vault.authorizations && s.vault.authorizations[rid].treasuryId in s.vault.treasuries
  {
    Job(s.system.book.sent[i].header, s.vault.authorizations[rid], s.vault.treasuries[s.vault.authorizations[rid].treasuryId])
  }

  lemma BeginsSigning(net: Net, s: State, i: nat, rid: nat)
    requires Signable(net, s, rid) && AsksSignature(s, i, rid)
    ensures Next(net, s, BeginSigning(i)) == s.(jobs := s.jobs + [JobFor(s, i, rid)])
  {
    hide CanSign, Running;
    assert BeginSign(s.vault, s.system.book.sent[i].header) == Ok(JobFor(s, i, rid));
    hide BeginSign;
  }

  /** What the enclave reads from the ledger when it signs. */
  datatype Reading = Reading(sequence: uint32, ledger: uint32)

  predicate Sane(x: Reading) {
    x.ledger < 0x1_0000_0000 - MAX_LEDGER_WINDOW
  }

  function InputOf(s: State, x: Reading): Input {
    Input(None, true, Some(x.sequence), Some(x.ledger), s.clock)
  }

  /** Nothing stands in the way of signing terms that can be signed. */
  lemma JobSucceeds(net: Net, s: State, job: Job, x: Reading)
    requires CanSign(net, job.auth) && Sane(x)
    ensures SignJob(net.crypto, job, InputOf(s, x)).Ok?
  {
    hide DecodeAddress, Serialized, LedgerWindow;
    var destination := DecodeAddress(net.crypto.checksum, job.auth.destination).value;
    var payment := PaymentFor(net.crypto, job, destination, x.sequence, x.ledger, s.clock);
    assert payment.(signingPubKey := job.treasury.key.publicKey) == payment;
    assert Validate(payment) == None;
  }

  /** The blob signed for a job under a reading: its account, sequence and ledger bound. */
  ghost predicate SignedUnder(blob: seq<byte>, job: Job, x: Reading, now: nat) {
    && blob != [] && Exact(blob)
    && var p := ReadBlobAsPayment(blob).value.payment;
       && p.account == job.treasury.accountId && p.sequence == x.sequence
       && p.lastLedgerSequence == LastLedger(x.ledger, job.auth.expiresAt, now)
  }

  lemma JobBlob(net: Net, s: State, job: Job, x: Reading) returns (blob: seq<byte>)
    requires CanSign(net, job.auth) && Sane(x)
    ensures SignedUnder(blob, job, x, s.clock)
    ensures SignJob(net.crypto, job, InputOf(s, x)).Ok?
    ensures blob == SignJob(net.crypto, job, InputOf(s, x)).value.txBlob != []
    ensures SignJob(net.crypto, job, InputOf(s, x)).value.txId == TransactionId(blob)
  {
    hide SignJob, Exact, ReadBlobAsPayment, DecodeAddress, EncodeMemo, CanSign, LastLedger;
    JobSucceeds(net, s, job, x);
    JobPays(net.crypto, job, InputOf(s, x));
    blob := SignJob(net.crypto, job, InputOf(s, x)).value.txBlob;
  }

  function SignedBody(h: Header, blob: seq<byte>): ResultBody {
    SignedPayment(h.chainId, h.controller, h.requestId, h.memoRef, TransactionId(blob), blob)
  }

  /** A signing finished: the authorization is gone, the result is out. */
  ghost predicate Finished(s: State, s': State, j: nat, body: ResultBody, ledger: uint32)
    requires j < |s.jobs|
  {
    && s'.signings == s.signings + [Signature(body, s.clock, ledger)]
    && s'.system == s.system && s'.clock == s.clock && s'.jobs == s.jobs[..j] + s.jobs[j + 1..]
    && s'.vault == s.vault.(authorizations := s.vault.authorizations - {s.jobs[j].header.requestId})
    && s.emitted <= s'.emitted && body in s'.emitted
  }

  lemma FinishesSigning(net: Net, s: State, j: nat, x: Reading) returns (blob: seq<byte>)
    requires j < |s.jobs| && CanSign(net, s.jobs[j].auth) && Sane(x)
    ensures SignedUnder(blob, s.jobs[j], x, s.clock)
    ensures
      var e := FinishSigning(j, Some(x.sequence), Some(x.ledger));
      && SignsNow(net, s, e, s.jobs[j].header.requestId)
      && Finished(s, Next(net, s, e), j, SignedBody(s.jobs[j].header, blob), x.ledger)
  {
    hide SignJob, PoliciesOf, CanSign, SignedUnder;
    blob := JobBlob(net, s, s.jobs[j], x);
  }

  function SignedBook(b: Book, rid: nat, blob: seq<byte>): Book
    requires rid in b.requests
  {
    b.(requests := b.requests[rid := b.requests[rid].(
      expectedTxId := TransactionId(blob), signedBlobHash := HashData(blob), state := SIGNED)])
  }

  /** A header that names a request of this controller. */
  predicate HeaderOf(b: Book, rid: nat, h: Header) {
    && rid in b.requests && h.requestId == rid && h.memoRef == b.requests[rid].memoRef
    && h.chainId == b.config.chainId && h.controller == b.config.self
  }

  function SignedCall(s: State, h: Header, blob: seq<byte>): Call {
    CallSubmitSignedPayment(Genuine(s.system.book.config, SignedBody(h, blob)))
  }

  lemma SubmitsSignature(net: Net, s: State, rid: nat, h: Header, blob: seq<byte>)
    requires Running(s.system.book) && HeaderOf(s.system.book, rid, h) && blob != []
    requires s.system.book.requests[rid].state == AUTHORIZED && s.clock <= s.system.book.requests[rid].expiresAt
    requires SignedBody(h, blob) in s.emitted
    ensures Next(net, s, Chain(SignedCall(s, h, blob))) == SetBook(s, SignedBook(s.system.book, rid, blob))
  {
    assert Perform(s.system.book, s.clock, SignedCall(s, h, blob)) == Ok(SignedBook(s.system.book, rid, blob));
    hide Perform, Next, World.Possible, Running, SignedBook;
    AnyoneMaySubmit(net, s, SignedCall(s, h, blob), SignedBody(h, blob));
    CallNext(net, s, SignedCall(s, h, blob), SignedBook(s.system.book, rid, blob));
  }

  // ---- Policies ----

  function UpdateInstruction(b: Book, tid: nat, policy: Policy): Instruction
    requires tid in b.treasuries
  {
    Instruction(TreasuryHeader(b, tid, PolicyCommitment(policy)), RegisterPolicy(policy), b.treasuries[tid].owner)
  }

  function UpdatedBook(b: Book, tid: nat, policy: Policy): Book
    requires tid in b.treasuries
  {
    b.(treasuries := b.treasuries[tid := b.treasuries[tid].(pendingPolicyCommitment := PolicyCommitment(policy))],
       sent := b.sent + [UpdateInstruction(b, tid, policy)])
  }

  function UpdateCall(b: Book, tid: nat, policy: Policy): Call
    requires tid in b.treasuries
  {
    CallRequestPolicyUpdate(b.treasuries[tid].owner, tid, policy)
  }

  /** A policy the owner may ask for now. */
  predicate Offered(b: Book, tid: nat, policy: Policy) {
    && Running(b) && tid in b.treasuries && b.treasuries[tid].bound
    && ValidPolicy(policy) && b.treasuries[tid].reservedDrops <= policy.maxTotalDrops
  }

  lemma Updates(net: Net, s: State, tid: nat, policy: Policy)
    requires Offered(s.system.book, tid, policy)
    ensures Next(net, s, Chain(UpdateCall(s.system.book, tid, policy))) == SetBook(s, UpdatedBook(s.system.book, tid, policy))
  {
    var b := s.system.book;
    assert Perform(b, s.clock, UpdateCall(b, tid, policy)) == Ok(UpdatedBook(b, tid, policy));
    hide Perform, Next, World.Possible, Offered, UpdatedBook;
    OwnerMayCall(net, s, UpdateCall(b, tid, policy));
    CallNext(net, s, UpdateCall(b, tid, policy), UpdatedBook(b, tid, policy));
  }

  function ConfirmBody(config: Config, tid: nat, policy: Policy): ResultBody {
    Confirm(config.chainId, config.self, tid, policy, PolicyCommitment(policy))
  }

  /** The instruction at this place registers this policy. */
  predicate Registers(b: Book, i: nat, tid: nat, policy: Policy) {
    && i < |b.sent| && b.sent[i].command == RegisterPolicy(policy)
    && b.sent[i].header == TreasuryHeader(b, tid, PolicyCommitment(policy))
  }

  function RegisteredVault(v: Vault, tid: nat, policy: Policy): Vault
    requires tid in v.treasuries
  {
    v.(treasuries := v.treasuries[tid := v.treasuries[tid].(policy := policy, policyCommitment := PolicyCommitment(policy))])
  }

  lemma RegistersPolicy(net: Net, s: State, i: nat, tid: nat, policy: Policy)
    requires Running(s.system.book) && tid in s.vault.treasuries && Registers(s.system.book, i, tid, policy)
    ensures Delivered(s, Next(net, s, Deliver(i, None, true)), RegisteredVault(s.vault, tid, policy),
                      ConfirmBody(s.system.book.config, tid, policy))
    ensures tid in Next(net, s, Deliver(i, None, true)).lastDelivered
    ensures Next(net, s, Deliver(i, None, true)).lastDelivered[tid] == i
  {
    assert Handle(net.crypto, s.vault, s.system.book.sent[i], Input(None, true, None, None, s.clock))
        == Handled(RegisteredVault(s.vault, tid, policy), Ok(ConfirmBody(s.system.book.config, tid, policy)));
    hide Handle, PoliciesOf, RegisteredVault;
    DeliverNext(net, s, i, None, RegisteredVault(s.vault, tid, policy), ConfirmBody(s.system.book.config, tid, policy));
  }

  function ConfirmedBook(b: Book, tid: nat, policy: Policy): Book
    requires tid in b.treasuries
  {
    b.(treasuries := b.treasuries[tid := b.treasuries[tid].(
      pendingPolicyCommitment := Zero, policy := policy, policyCommitment := PolicyCommitment(policy))])
  }

  function ConfirmCall(b: Book, tid: nat, policy: Policy): Call {
    CallConfirmPolicy(Genuine(b.config, ConfirmBody(b.config, tid, policy)))
  }

  lemma Confirms(net: Net, s: State, tid: nat, policy: Policy)
    requires Running(s.system.book) && tid in s.system.book.treasuries
    requires s.system.book.treasuries[tid].pendingPolicyCommitment == PolicyCommitment(policy)
    requires ConfirmBody(s.system.book.config, tid, policy) in s.emitted
    ensures Perform(s.system.book, s.clock, ConfirmCall(s.system.book, tid, policy)).Ok?
    ensures World.Possible(net, s, Chain(ConfirmCall(s.system.book, tid, policy)))
    ensures Next(net, s, Chain(ConfirmCall(s.system.book, tid, policy))) == SetBook(s, ConfirmedBook(s.system.book, tid, policy))
  {
    var b := s.system.book;
    assert Perform(b, s.clock, ConfirmCall(b, tid, policy)) == Ok(ConfirmedBook(b, tid, policy));
    hide Perform, Next, World.Possible, Running, ConfirmedBook;
    AnyoneMaySubmit(net, s, ConfirmCall(b, tid, policy), ConfirmBody(b.config, tid, policy));
    CallNext(net, s, ConfirmCall(b, tid, policy), ConfirmedBook(b, tid, policy));
  }

  // ---- Expiry ----

  lemma TimePasses(net: Net, s: State, seconds: nat)
    ensures Next(net, s, Tick(seconds)) == s.(clock := s.clock + seconds)
  {
  }

  lemma Expires(net: Net, s: State, rid: nat)
    requires rid in s.system.book.requests && s.system.book.requests[rid].state == SIGNED
    requires s.system.book.requests[rid].expiresAt + SETTLEMENT_GRACE < LIMIT_64
    requires s.clock > s.system.book.requests[rid].expiresAt + SETTLEMENT_GRACE
    requires Release(s.system.book, rid, EXPIRED).Ok?
    ensures Next(net, s, Chain(CallExpireRequest(rid))) == SetBook(s, Release(s.system.book, rid, EXPIRED).value)
  {
    hide Release, Next, World.Possible;
    OwnerMayCall(net, s, CallExpireRequest(rid));
    CallNext(net, s, CallExpireRequest(rid), Release(s.system.book, rid, EXPIRED).value);
  }
}
