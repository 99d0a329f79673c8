/** Payments complete: from any state with an active treasury, a payment its policy allows can be
    authorized, signed and settled. So the safety theorems are about runs that get somewhere. */
module Completion {
  import opened Wrappers
  import opened Bytes
  import opened Protocol
  import opened ClassicAddress
  import opened XrplFormat
  import opened Payments
  import opened PaymentRoundTrip
  import opened Books
  import opened Settlement
  import opened EnclaveState
  import opened EnclaveRuns
  import opened World
  import opened Agreement
  import opened Signings
  import opened Progress

  // ---- Steps that neither grant nor sign ----

  /** One more happening. */
  lemma Step(net: Net, config: Config, tr: Trace, e: Happening, rid: nat) returns (tr': Trace)
    requires TraceOf(net, config, tr)
    ensures TraceOf(net, config, tr') && Continues(tr, tr') && Last(tr') == Next(net, Last(tr), e)
    ensures |tr'.happenings| == |tr.happenings| + 1
    ensures GrantTotal(net, tr', rid) == GrantTotal(net, tr, rid) + (if GrantsNow(net, Last(tr), e, rid) then 1 else 0)
    ensures SigningTotal(net, tr', rid) == SigningTotal(net, tr, rid) + (if SignsNow(net, Last(tr), e, rid) then 1 else 0)
  {
    hide Next, GrantsNow, SignsNow, GrantTotal, SigningTotal, Follows;
    tr' := Grow(net, tr, e);
    GrowsTrace(net, config, tr, e);
    GrowsCounts(net, tr, e, rid);
  }

  lemma Neutral(net: Net, s: State, e: Happening, rid: nat)
    ensures !e.Deliver? ==> !GrantsNow(net, s, e, rid)
    ensures !e.FinishSigning? ==> !SignsNow(net, s, e, rid)
  {
    hide Handle, FinishSign, World.Possible;
  }

  // ---- Authorizing ----

  /** The payment can be asked for in this state. */
  ghost predicate Ready(net: Net, s: State, p: Plan) {
    Active(s, p.tid) && Allowed(net, s, p) && InBounds(s, p.tid) && p.rid == s.system.book.requestCount + 1
  }

  lemma ReadyInBounds(net: Net, s: State, p: Plan)
    requires Ready(net, s, p)
    ensures InBounds(s, p.tid)
  {
    hide Active, Allowed;
  }

  function AskHeader(s: State, p: Plan): Header
    requires InBounds(s, p.tid)
  {
    AskInstruction(s, p).header
  }

  /** Asked for, authorized by the enclave, not yet submitted. */
  lemma AsksAndGrants(net: Net, config: Config, tr: Trace, p: Plan) returns (tr': Trace)
    requires TraceOf(net, config, tr) && Ready(net, Last(tr), p)
    ensures TraceOf(net, config, tr') && Continues(tr, tr') && |tr'.happenings| == |tr.happenings| + 2
    ensures
      var s, s' := Last(tr), Last(tr');
      && s'.system == SetBook(s, AskedBook(s, p)).system && s'.clock == s.clock && s'.jobs == s.jobs && s'.signings == s.signings
      && s'.vault == s.vault.(authorizations := s.vault.authorizations[p.rid := GrantedFor(AskHeader(s, p), p)])
      && s.emitted <= s'.emitted && GrantBody(AskHeader(s, p), p) in s'.emitted
    ensures GrantTotal(net, tr', p.rid) == GrantTotal(net, tr, p.rid) + 1
    ensures SigningTotal(net, tr', p.rid) == SigningTotal(net, tr, p.rid)
  {
    hide Next, Follows, GrantsNow, SignsNow, GrantTotal, SigningTotal, Active, Allowed, InBounds, AsksFor;
    var s := Last(tr);
    AskedIsActive(net, s, p);
    Asks(net, s, p);
    Neutral(net, s, Chain(AskCall(s, p)), p.rid);
    var tr1 := Step(net, config, tr, Chain(AskCall(s, p)), p.rid);
    var s1 := Last(tr1);
    var i := |s.system.book.sent|;
    assert s1.system.book.sent[i] == AskInstruction(s, p);
    GrantsPayment(net, s1, i, p);
    Neutral(net, s1, Deliver(i, None, true), p.rid);
    tr' := Step(net, config, tr1, Deliver(i, None, true), p.rid);
  }

  lemma AskedIsActive(net: Net, s: State, p: Plan)
    requires Ready(net, s, p)
    ensures
      var s1 := SetBook(s, AskedBook(s, p));
      Active(s1, p.tid) && Allowed(net, s1, p) && AsksFor(s1, |s.system.book.sent|, p) && Running(s1.system.book)
    ensures p.ciphertext != []
  {
    hide DecodeAddress;
  }

  /** The controller once the payment is authorized. */
  function ReservedBook(s: State, p: Plan): Book
    requires InBounds(s, p.tid)
  {
    AuthorizedBook(SetBook(s, AskedBook(s, p)), p)
  }

  lemma Authorizes(net: Net, config: Config, tr: Trace, p: Plan) returns (tr': Trace)
    requires TraceOf(net, config, tr) && Ready(net, Last(tr), p)
    ensures TraceOf(net, config, tr') && Continues(tr, tr')
    ensures
      var s, s' := Last(tr), Last(tr');
      && s'.system == SetBook(s, ReservedBook(s, p)).system && s'.clock == s.clock && s'.jobs == s.jobs && s'.signings == s.signings
      && s'.vault == s.vault.(authorizations := s.vault.authorizations[p.rid := GrantedFor(AskHeader(s, p), p)])
      && Signable(net, s', p.rid)
    ensures GrantTotal(net, tr', p.rid) == GrantTotal(net, tr, p.rid) + 1
    ensures SigningTotal(net, tr', p.rid) == SigningTotal(net, tr, p.rid)
  {
    hide Next, Follows, GrantsNow, SignsNow, GrantTotal, SigningTotal, Active, Allowed, InBounds, AsksFor, Waits, AskedBook,
         AuthorizedBook, Signable, Running;
    var s := Last(tr);
    AskedIsActive(net, s, p);
    AskedWaits(net, s, p);
    ReservedIsSignable(net, s, p);
    var tr1 := AsksAndGrants(net, config, tr, p);
    var s1, h := Last(tr1), AskHeader(s, p);
    AllowedElsewhere(net, SetBook(s, AskedBook(s, p)), s1, p);
    WaitsElsewhere(SetBook(s, AskedBook(s, p)), s1, p, h);
    SubmitsGrant(net, s1, p, h);
    Neutral(net, s1, Chain(GrantCall(s1, h, p)), p.rid);
    tr' := Step(net, config, tr1, Chain(GrantCall(s1, h, p)), p.rid);
    AuthorizedElsewhere(SetBook(s, AskedBook(s, p)), s1, p);
    SignableElsewhere(net, SetBook(s, ReservedBook(s, p)).(vault := s1.vault), Last(tr'), p.rid);
  }

  lemma AskedWaits(net: Net, s: State, p: Plan)
    requires Ready(net, s, p)
    ensures Waits(SetBook(s, AskedBook(s, p)), p, AskHeader(s, p))
    ensures p.rid in AskedBook(s, p).requests && AskedBook(s, p).requests[p.rid].treasuryId in AskedBook(s, p).treasuries
  {
    hide Allowed;
  }

  lemma AllowedElsewhere(net: Net, s: State, s': State, p: Plan)
    requires Allowed(net, s, p) && s'.system == s.system && s'.vault.treasuries == s.vault.treasuries
    ensures Allowed(net, s', p)
  {
    hide DecodeAddress;
  }

  lemma WaitsElsewhere(s: State, s': State, p: Plan, h: Header)
    requires Waits(s, p, h) && s'.system == s.system && s'.clock == s.clock
    ensures Waits(s', p, h)
  {
  }

  lemma AuthorizedElsewhere(s: State, s': State, p: Plan)
    requires s'.system == s.system
    requires p.rid in s.system.book.requests && s.system.book.requests[p.rid].treasuryId in s.system.book.treasuries
    ensures AuthorizedBook(s', p) == AuthorizedBook(s, p)
  {
  }

  lemma SignableElsewhere(net: Net, s: State, s': State, rid: nat)
    requires Signable(net, s, rid) && s'.system == s.system && s'.clock == s.clock && s'.vault == s.vault
    ensures Signable(net, s', rid)
  {
    hide CanSign, Running;
  }

  lemma ReservedIsSignable(net: Net, s: State, p: Plan)
    requires Ready(net, s, p)
    ensures p.terms.amountDrops <= XrplFields.MAX_DROPS
    ensures
      var authorizations := s.vault.authorizations[p.rid := GrantedFor(AskHeader(s, p), p)];
      Signable(net, SetBook(s, ReservedBook(s, p)).(vault := s.vault.(authorizations := authorizations)), p.rid)
  {
    hide DecodeAddress;
  }

  // ---- Signing ----

  /** The signing handler has begun. */
  lemma BeginsOnce(net: Net, config: Config, tr: Trace, i: nat, rid: nat) returns (tr': Trace)
    requires TraceOf(net, config, tr) && Signable(net, Last(tr), rid) && AsksSignature(Last(tr), i, rid)
    ensures TraceOf(net, config, tr') && Continues(tr, tr')
    ensures Last(tr') == Last(tr).(jobs := Last(tr).jobs + [JobFor(Last(tr), i, rid)])
    ensures GrantTotal(net, tr', rid) == GrantTotal(net, tr, rid) && SigningTotal(net, tr', rid) == SigningTotal(net, tr, rid)
  {
    hide Next, Follows, GrantsNow, SignsNow, GrantTotal, SigningTotal, CanSign, AsksSignature;
    BeginsSigning(net, Last(tr), i, rid);
    Neutral(net, Last(tr), BeginSigning(i), rid);
    tr' := Step(net, config, tr, BeginSigning(i), rid);
  }

  /** One begun signing has finished. */
  lemma FinishesOnce(net: Net, config: Config, tr: Trace, j: nat, x: Progress.Reading, rid: nat) returns (tr': Trace, blob: seq<byte>)
    requires TraceOf(net, config, tr) && j < |Last(tr).jobs| && CanSign(net, Last(tr).jobs[j].auth) && Sane(x)
    requires Last(tr).jobs[j].header.requestId == rid
    ensures TraceOf(net, config, tr') && Continues(tr, tr') && SignedUnder(blob, Last(tr).jobs[j], x, Last(tr).clock)
    ensures Finished(Last(tr), Last(tr'), j, SignedBody(Last(tr).jobs[j].header, blob), x.ledger)
    ensures GrantTotal(net, tr', rid) == GrantTotal(net, tr, rid) && SigningTotal(net, tr', rid) == SigningTotal(net, tr, rid) + 1
  {
    hide Next, Follows, GrantsNow, SignsNow, GrantTotal, SigningTotal, CanSign, Sane, Finished, SignedUnder;
    var e := FinishSigning(j, Some(x.sequence), Some(x.ledger));
    blob := FinishesSigning(net, Last(tr), j, x);
    Neutral(net, Last(tr), e, rid);
    tr' := Step(net, config, tr, e, rid);
  }

  /** The controller once the request has a signature. */
  function SentBook(s: State, rid: nat): Book
    requires rid in s.system.book.requests && s.system.book.requests[rid].treasuryId in s.system.book.treasuries
  {
    s.system.book.(sent := s.system.book.sent + [SignInstruction(s, rid)])
  }

  lemma AsksSignatureOnce(net: Net, config: Config, tr: Trace, rid: nat) returns (tr': Trace)
    requires TraceOf(net, config, tr) && Signable(net, Last(tr), rid)
    ensures TraceOf(net, config, tr') && Continues(tr, tr') && Last(tr') == SetBook(Last(tr), SentBook(Last(tr), rid))
    ensures Signable(net, Last(tr'), rid) && AsksSignature(Last(tr'), |Last(tr).system.book.sent|, rid)
    ensures GrantTotal(net, tr', rid) == GrantTotal(net, tr, rid) && SigningTotal(net, tr', rid) == SigningTotal(net, tr, rid)
  {
    AskedSignature(net, Last(tr), rid);
    hide Next, TraceOf, GrantsNow, SignsNow, GrantTotal, SigningTotal, CanSign, AsksSignature, Running;
    AsksToSign(net, Last(tr), rid);
    Neutral(net, Last(tr), Chain(SignCall(Last(tr), rid)), rid);
    tr' := Step(net, config, tr, Chain(SignCall(Last(tr), rid)), rid);
  }

  lemma AskedSignature(net: Net, s: State, rid: nat)
    requires Signable(net, s, rid)
    ensures
      var s' := SetBook(s, SentBook(s, rid));
      Signable(net, s', rid) && AsksSignature(s', |s.system.book.sent|, rid)
  {
    hide CanSign;
  }

  lemma SignsPayment(net: Net, config: Config, tr: Trace, rid: nat, x: Progress.Reading) returns (tr': Trace, blob: seq<byte>)
    requires TraceOf(net, config, tr) && Signable(net, Last(tr), rid) && Sane(x)
    ensures TraceOf(net, config, tr') && Continues(tr, tr')
    ensures
      var s, s' := Last(tr), Last(tr');
      && s'.system == SetBook(s, SignedBook(SentBook(s, rid), rid, blob)).system && s'.clock == s.clock && s'.jobs == s.jobs
      && s'.vault == s.vault.(authorizations := s.vault.authorizations - {rid})
      && rid in s.vault.authorizations && s.vault.authorizations[rid].treasuryId in s.vault.treasuries
      && SignedUnder(blob, JobFor(SetBook(s, SentBook(s, rid)), |s.system.book.sent|, rid), x, s.clock)
      && s'.signings == s.signings + [Signature(SignedBody(SignInstruction(s, rid).header, blob), s.clock, x.ledger)]
    ensures GrantTotal(net, tr', rid) == GrantTotal(net, tr, rid) && SigningTotal(net, tr', rid) == SigningTotal(net, tr, rid) + 1
  {
    hide Next, Follows, GrantsNow, SignsNow, GrantTotal, SigningTotal, CanSign, Sane, AsksSignature, Running, SignedBook,
         SignInstruction, SignedUnder;
    var s, i := Last(tr), |Last(tr).system.book.sent|;
    AskedHeader(net, s, rid);
    var tr1 := AsksSignatureOnce(net, config, tr, rid);
    var tr2 := BeginsOnce(net, config, tr1, i, rid);
    var j := |s.jobs|;
    var tr3;
    tr3, blob := FinishesOnce(net, config, tr2, j, x, rid);
    var s3, h := Last(tr3), Last(tr2).jobs[j].header;
    BlobNonempty(blob, Last(tr2).jobs[j], x, Last(tr2).clock);
    SubmitsSignature(net, s3, rid, h, blob);
    Neutral(net, s3, Chain(SignedCall(s3, h, blob)), rid);
    tr' := Step(net, config, tr3, Chain(SignedCall(s3, h, blob)), rid);
  }

  lemma BlobNonempty(blob: seq<byte>, job: Job, x: Progress.Reading, now: nat)
    requires SignedUnder(blob, job, x, now)
    ensures blob != []
  {
    hide Exact, ReadBlobAsPayment, LastLedger;
  }

  lemma AskedHeader(net: Net, s: State, rid: nat)
    requires Signable(net, s, rid)
    ensures
      var b := SentBook(s, rid);
      HeaderOf(b, rid, b.sent[|s.system.book.sent|].header) && Running(b)
      && b.sent[|s.system.book.sent|].header.requestId == rid
  {
    hide CanSign;
  }

  // ---- Settling ----

  lemma LastReachable(net: Net, config: Config, tr: Trace)
    requires TraceOf(net, config, tr)
    ensures Reachable(net, config, Last(tr))
  {
    hide TraceOf;
  }

  lemma AgreedIsReported(net: Net, b: Book, rid: nat, blob: seq<byte>)
    requires Agrees(net, b, rid, blob)
    ensures ReportOf(net, blob).Some?
  {
    hide ReadBlobAsPayment, EncodeAddress, DecodeAddress, EncodeMemo, ParseObject, FieldsOf;
    var p := ReadBlobAsPayment(blob).value.payment;
    AddressCanonicity(net.crypto.checksum, b.treasuries[b.requests[rid].treasuryId].xrplAddress, p.account);
  }

  /** The settling happening for an executed blob. */
  ghost function SettlingOf(net: Net, rid: nat, blob: seq<byte>): Happening
    requires ReportOf(net, blob).Some?
  {
    Settle(true, rid, ProofOf(net, 0, TransactionId(blob), ReportOf(net, blob).value))
  }

  lemma SettleNext(net: Net, s: State, rid: nat, proof: Proof)
    requires World.Possible(net, s, Settle(true, rid, proof)) && FinalizePayment(net.site, s.system, true, rid, proof).Ok?
    ensures Next(net, s, Settle(true, rid, proof)).system == FinalizePayment(net.site, s.system, true, rid, proof).value
  {
    hide FinalizePayment;
  }

  /** The accepted blob has a report; if FDC attests it for this one transaction, the request settles. */
  ghost predicate SettlesOnceExecuted(net: Net, s: State, rid: nat, blob: seq<byte>) {
    && ReportOf(net, blob).Some?
    && (net.fdc(TransactionId(blob)) == ReportOf(net, blob) ==>
          IsSettled(Next(net, s, SettlingOf(net, rid, blob)).system.book, rid))
  }

  lemma SignedSettles(net: Net, config: Config, s: State, rid: nat, blob: seq<byte>)
    requires Wired(net, config) && Reachable(net, config, s) && Accepted(s.system.book, rid, blob)
    requires s.system.book.requests[rid].state == SIGNED && WordsDistinct(s.system.book, net.crypto.word)
    requires s.system.book.requests[rid].expectedTxId == TransactionId(blob)
    ensures SettlesOnceExecuted(net, s, rid, blob)
  {
    hide Next, Reachable, Agrees, ReportOf, FinalizePayment, World.Possible, Wired, WordsDistinct, IsSettled;
    TermsAgreement(net, config, s, rid, blob);
    AgreedIsReported(net, s.system.book, rid, blob);
    if net.fdc(TransactionId(blob)) == ReportOf(net, blob) {
      var body := ReportOf(net, blob).value;
      Settleability(net, config, s, rid, blob, body, 0);
      SettleNext(net, s, rid, ProofOf(net, 0, TransactionId(blob), body));
    }
  }

  lemma SignableExists(net: Net, s: State, rid: nat)
    requires Signable(net, s, rid)
    ensures rid in s.system.book.requests && s.system.book.requests[rid].treasuryId in s.system.book.treasuries
  {
    hide CanSign, Running;
  }

  lemma SignedIsAccepted(b: Book, rid: nat, blob: seq<byte>)
    requires rid in b.requests
    ensures
      var b' := SignedBook(b, rid, blob);
      Accepted(b', rid, blob) && b'.requests[rid].state == SIGNED && b'.requests[rid].expectedTxId == TransactionId(blob)
  {
  }

  /** From any history that ends with an active treasury, every payment its policy allows can be carried
      on until its signed blob is accepted; and once XRPL has executed that blob and FDC attests it, to
      settlement. */
  lemma PaymentsComplete(net: Net, config: Config, tr: Trace, p: Plan, x: Progress.Reading) returns (tr': Trace, blob: seq<byte>)
    requires Wired(net, config) && TraceOf(net, config, tr) && Ready(net, Last(tr), p) && Sane(x)
    ensures TraceOf(net, config, tr') && Continues(tr, tr')
    ensures Accepted(Last(tr').system.book, p.rid, blob) && Last(tr').system.book.requests[p.rid].state == SIGNED
    ensures WordsDistinct(Last(tr').system.book, net.crypto.word) ==> SettlesOnceExecuted(net, Last(tr'), p.rid, blob)
  {
    hide Follows, Wired, Ready, WordsDistinct, SettlesOnceExecuted, GrantTotal, SigningTotal, Reachable, Sane, SignedUnder, SignedBook,
         Signable, ReservedBook;
    var tr1 := Authorizes(net, config, tr, p);
    SignableExists(net, Last(tr1), p.rid);
    tr', blob := SignsPayment(net, config, tr1, p.rid, x);
    SignedIsAccepted(SentBook(Last(tr1), p.rid), p.rid, blob);
    LastReachable(net, config, tr');
    if WordsDistinct(Last(tr').system.book, net.crypto.word) {
      SignedSettles(net, config, Last(tr'), p.rid, blob);
    }
  }

  // ---- A first treasury ----

  /** What opening a treasury takes. */
  datatype Opening = Opening(owner: Address, policy: Policy, key: SigningKey)

  function OpenedTreasury(net: Net, o: Opening): Books.Treasury {
    Books.Treasury(o.owner, AddressOfKey(net.crypto, o.key), HashText(AddressOfKey(net.crypto, o.key)), o.policy,
                   PolicyCommitment(o.policy), Zero, 0, 1, true, false)
  }

  function OpenedVault(net: Net, o: Opening): Vault {
    Vault(map[1 := EnclaveState.Treasury(o.key, net.crypto.accountIdOf(o.key.publicKey), AddressOfKey(net.crypto, o.key), o.policy,
                                         PolicyCommitment(o.policy))], map[])
  }

  function CreatedBook(config: Config, o: Opening): Book {
    InitialBook(config).(treasuryCount := 1,
      treasuries := map[1 := Books.Treasury(o.owner, "", Zero, o.policy, PolicyCommitment(o.policy), Zero, 0, 1, false, false)],
      sent := [Instruction(Header(config.chainId, config.self, 1, 0, 0, 0, Zero, PolicyCommitment(o.policy)),
                           CreateTreasuryKey(o.policy), o.owner)])
  }

  function OpenedBook(net: Net, config: Config, o: Opening): Book {
    CreatedBook(config, o).(treasuries := map[1 := OpenedTreasury(net, o)])
  }

  function BindBody(net: Net, config: Config, o: Opening): ResultBody {
    Bind(config.chainId, config.self, 1, AddressOfKey(net.crypto, o.key), PolicyCommitment(o.policy))
  }

  lemma Creates(config: Config, o: Opening, now: nat)
    requires Running(InitialBook(config)) && ValidPolicy(o.policy)
    ensures Perform(InitialBook(config), now, CallCreateTreasury(o.owner, o.policy)) == Ok(CreatedBook(config, o))
  {
    var b := Perform(InitialBook(config), now, CallCreateTreasury(o.owner, o.policy)).value;
    assert b.treasuries == CreatedBook(config, o).treasuries && b.sent == CreatedBook(config, o).sent;
  }

  lemma MakesKey(net: Net, config: Config, o: Opening, input: Input)
    requires Running(InitialBook(config)) && input.key == Some(o.key)
    ensures Handle(net.crypto, Vault(map[], map[]), CreatedBook(config, o).sent[0], input)
         == Handled(OpenedVault(net, o), Ok(BindBody(net, config, o)))
  {
    AddressExists(net.crypto, o.key);
    hide EncodeAddress, AddressOfKey;
  }

  lemma Binds(net: Net, config: Config, o: Opening, now: nat)
    requires Running(InitialBook(config))
    ensures Perform(CreatedBook(config, o), now, CallBind(Genuine(config, BindBody(net, config, o)))) == Ok(OpenedBook(net, config, o))
  {
    AddressExists(net.crypto, o.key);
    hide EncodeAddress, AddressOfKey;
    var b := Perform(CreatedBook(config, o), now, CallBind(Genuine(config, BindBody(net, config, o)))).value;
    assert b.treasuries == OpenedBook(net, config, o).treasuries;
  }

  lemma StartTrace(net: Net, config: Config, clock: nat) returns (tr: Trace)
    ensures TraceOf(net, config, tr) && tr.happenings == [] && Last(tr) == Start(config, clock)
  {
    tr := Trace([Start(config, clock)], []);
  }

  /** A fresh deployment can open an active treasury. */
  lemma Opens(net: Net, config: Config, clock: nat, o: Opening, rid: nat) returns (tr: Trace)
    requires Running(InitialBook(config)) && ValidPolicy(o.policy)
    ensures TraceOf(net, config, tr) && Active(Last(tr), 1)
    ensures
      var s := Last(tr);
      && s.system.book == OpenedBook(net, config, o) && s.vault == OpenedVault(net, o) && s.clock == clock && s.jobs == []
      && s.signings == []
    ensures GrantTotal(net, tr, rid) == 0 && SigningTotal(net, tr, rid) == 0
  {
    AddressExists(net.crypto, o.key);
    hide Next, TraceOf, GrantsNow, SignsNow, Perform, Handle, World.Possible, AddressOfKey, EncodeAddress;
    var tr0 := StartTrace(net, config, clock);
    var create := CallCreateTreasury(o.owner, o.policy);
    Creates(config, o, clock);
    OwnerMayCall(net, Last(tr0), create);
    CallNext(net, Last(tr0), create, CreatedBook(config, o));
    Neutral(net, Last(tr0), Chain(create), rid);
    var tr1 := Step(net, config, tr0, Chain(create), rid);
    var s1 := Last(tr1);
    MakesKey(net, config, o, Input(Some(o.key), true, None, None, s1.clock));
    DeliverNext(net, s1, 0, Some(o.key), OpenedVault(net, o), BindBody(net, config, o));
    KeyIsNoGrant(net, s1, Some(o.key), rid);
    Neutral(net, s1, Deliver(0, Some(o.key), true), rid);
    var tr2 := Step(net, config, tr1, Deliver(0, Some(o.key), true), rid);
    var bind := CallBind(Genuine(config, BindBody(net, config, o)));
    Binds(net, config, o, clock);
    AnyoneMaySubmit(net, Last(tr2), bind, BindBody(net, config, o));
    CallNext(net, Last(tr2), bind, OpenedBook(net, config, o));
    Neutral(net, Last(tr2), Chain(bind), rid);
    tr := Step(net, config, tr2, Chain(bind), rid);
  }

  lemma KeyIsNoGrant(net: Net, s: State, key: Option<SigningKey>, rid: nat)
    requires |s.system.book.sent| > 0 && s.system.book.sent[0].command.CreateTreasuryKey?
    ensures !GrantsNow(net, s, Deliver(0, key, true), rid)
  {
    hide Handle;
  }
}
