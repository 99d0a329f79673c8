/** What every happening keeps: each side's records, and everything in flight between them, speak of
    the same payment. */
module WorldInvariant {
  import opened Wrappers
  import opened Protocol
  import opened ClassicAddress
  import opened Books
  import opened BookInvariant
  import opened BookRuns
  import opened BookTerms
  import opened Settlement
  import opened EnclaveState
  import opened EnclaveRuns
  import opened World

  // ---- The terms a request stands for ----

  /** The authorization a request's payload decrypts to: a function of fields that never change. */
  function TermsOf(net: Net, r: Request): Option<StoredAuthorization> {
    match r.payloadHash
    case Keccak(Data(ciphertext)) =>
      (match net.crypto.decrypt(ciphertext)
       case Some(pi) =>
         if 0 < pi.amountDrops < 0x1_0000_0000_0000_0000 && DecodeAddress(net.crypto.checksum, pi.destination).Ok? then
           Some(StoredAuthorization(r.treasuryId, pi.destination, pi.amountDrops, pi.destinationTag, pi.hasDestinationTag,
                                    r.memoRef, r.expiresAt, r.payloadHash))
         else None
       case None => None)
    case _ => None
  }

  ghost predicate HasTerms(net: Net, b: Book, rid: nat, auth: StoredAuthorization) {
    rid in b.requests && TermsOf(net, b.requests[rid]) == Some(auth)
  }

  // ---- One record at a time ----

  ghost predicate AddressOk(net: Net, t: EnclaveState.Treasury) {
    EncodeAddress(net.crypto.checksum, t.accountId) == Ok(t.address)
  }

  ghost predicate JobOk(net: Net, s: State, job: Job) {
    && HeaderFor(s.system.book, job.header) && s.system.book.requests[job.header.requestId].destinationHash != Zero
    && HasTerms(net, s.system.book, job.header.requestId, job.auth)
    && job.auth.treasuryId in s.vault.treasuries
    && SameKey(job.treasury, s.vault.treasuries[job.auth.treasuryId])
  }

  /** A signature pays exactly the terms of the request it names. */
  ghost predicate SignatureOk(net: Net, s: State, g: Signature) {
    && g.body.SignedPayment? && g.body.signedTxBlob != [] && g.at <= s.clock
    && g.body.requestId in s.system.book.requests
    && var r := s.system.book.requests[g.body.requestId];
       && r.destinationHash != Zero && TermsOf(net, r).Some? && r.treasuryId in s.vault.treasuries
       && PaysFor(net.crypto, g.body, TermsOf(net, r).value, s.vault.treasuries[r.treasuryId].accountId)
       && BoundedBy(g.body, g.ledger, r.expiresAt, g.at)
  }

  ghost predicate EmittedOk(net: Net, s: State, body: ResultBody) {
    match body
    case Bind(_, _, tid, address, _) => tid in s.vault.treasuries && s.vault.treasuries[tid].address == address
    case Confirm(_, _, _, _, _) => true
    case Authorization(_, _, rid, _, amount, destinationHash, _) =>
      && rid in s.system.book.requests
      && var terms := TermsOf(net, s.system.book.requests[rid]);
         terms.Some? && amount == terms.value.amountDrops && destinationHash == HashText(terms.value.destination)
    case SignedPayment(_, _, _, _, _, _) => exists g :: g in s.signings && g.body == body
    case Failure(_, _, _, _) => false
  }

  ghost predicate BoundOk(s: State, tid: nat)
    requires tid in s.system.book.treasuries
  {
    var t := s.system.book.treasuries[tid];
    t.bound ==> tid in s.vault.treasuries && t.xrplAddress == s.vault.treasuries[tid].address
  }

  /** The signature a request's accepted blob came from, made no later than the deadline. */
  ghost predicate AcceptedFrom(r: Request, rid: nat, g: Signature) {
    && g.body.SignedPayment? && g.body.requestId == rid
    && r.signedBlobHash == HashData(g.body.signedTxBlob) && r.expectedTxId == g.body.expectedTxId
    && g.at <= r.expiresAt
  }

  ghost predicate StageOk(r: Request, clock: nat) {
    && (Counts(Reserving, r.state) ==> r.destinationHash != Zero) && (r.state == CREATED ==> r.destinationHash == Zero)
    && (r.state == SIGNED || r.state == BROADCAST || r.state == SETTLED ==> r.signedBlobHash != Zero)
    && (r.state == CREATED || r.state == AUTHORIZED || r.state == CANCELLED || r.state == FAILED ==> r.signedBlobHash == Zero)
    && (r.signedBlobHash != Zero ==> r.destinationHash != Zero)
    && (r.state == EXPIRED && r.signedBlobHash != Zero ==> clock > r.expiresAt + SETTLEMENT_GRACE)
  }

  ghost predicate TermsOk(net: Net, r: Request) {
    r.destinationHash != Zero ==>
      && TermsOf(net, r).Some?
      && r.amountDrops == TermsOf(net, r).value.amountDrops
      && r.destinationHash == HashText(TermsOf(net, r).value.destination)
  }

  ghost predicate SignedOk(s: State, rid: nat)
    requires rid in s.system.book.requests
  {
    var r := s.system.book.requests[rid];
    r.signedBlobHash != Zero ==> exists g :: g in s.signings && AcceptedFrom(r, rid, g)
  }

  ghost predicate RequestGood(net: Net, s: State, rid: nat)
    requires rid in s.system.book.requests
  {
    var r := s.system.book.requests[rid];
    StageOk(r, s.clock) && TermsOk(net, r) && SignedOk(s, rid)
  }

  /** The attested payment succeeded, left the account of the request's treasury, reached the recorded
      destination with the recorded amount, and carried the request's memo. */
  ghost predicate Fulfils(net: Net, v: Vault, r: Request, body: ResponseBody) {
    && body.status == 0 && body.hasMemoData && body.firstMemoData == EncodeMemo(net.crypto.word, r.memoRef)
    && body.receivedAmount == r.amountDrops > 0 && body.receivingAddressHash == r.destinationHash
    && r.treasuryId in v.treasuries && body.sourceAddressHash == HashText(v.treasuries[r.treasuryId].address)
  }

  /** FDC attested a payment that fulfils the settled request. */
  ghost predicate SettledTruly(net: Net, s: State, tx: Bytes32)
    requires tx in s.system.settledBy
  {
    var rid := s.system.settledBy[tx];
    && rid in s.system.book.requests && net.fdc(tx).Some?
    && Fulfils(net, s.vault, s.system.book.requests[rid], net.fdc(tx).value)
  }

  // ---- All records ----

  ghost predicate LogOk(b: Book) {
    forall i :: i in b.sent ==> InstructionOk(b, i)
  }

  ghost predicate VaultOk(net: Net, s: State) {
    && (forall tid :: tid in s.vault.treasuries ==> AddressOk(net, s.vault.treasuries[tid]))
    && (forall rid :: rid in s.vault.authorizations ==> HasTerms(net, s.system.book, rid, s.vault.authorizations[rid]))
  }

  ghost predicate JobsOk(net: Net, s: State) {
    forall job :: job in s.jobs ==> JobOk(net, s, job)
  }

  ghost predicate SignaturesOk(net: Net, s: State) {
    forall g :: g in s.signings ==> SignatureOk(net, s, g)
  }

  ghost predicate EmissionsOk(net: Net, s: State) {
    forall body :: body in s.emitted ==> EmittedOk(net, s, body)
  }

  ghost predicate BoundsOk(s: State) {
    forall tid :: tid in s.system.book.treasuries ==> BoundOk(s, tid)
  }

  ghost predicate RequestsOk(net: Net, s: State) {
    forall rid :: rid in s.system.book.requests ==> RequestGood(net, s, rid)
  }

  ghost predicate SettlementsOk(net: Net, s: State) {
    forall tx :: tx in s.system.settledBy ==> SettledTruly(net, s, tx)
  }

  ghost predicate WorldInv(net: Net, s: State) {
    && SystemInv(net.site, s.system) && net.site.word == net.crypto.word
    && LogOk(s.system.book) && VaultOk(net, s) && JobsOk(net, s) && SignaturesOk(net, s) && EmissionsOk(net, s)
    && BoundsOk(s) && RequestsOk(net, s) && SettlementsOk(net, s)
  }

  lemma StartInv(net: Net, config: Config, clock: nat)
    requires Wired(net, config)
    ensures WorldInv(net, Start(config, clock))
  {
    hide Inv, Bijection;
    FreshInv(net.site, config);
  }

  // ---- Frames ----

  ghost predicate BookFrame(b: Book, b': Book) {
    && b'.config == b.config
    && forall rid :: rid in b.requests ==> rid in b'.requests && Later(b.requests[rid], b'.requests[rid])
  }

  /** The same request, and once authorized it stays so. */
  ghost predicate Later(r: Request, r': Request) {
    SameIdentity(r, r') && (r.destinationHash != Zero ==> r'.destinationHash != Zero)
  }

  ghost predicate VaultFrame(v: Vault, v': Vault) {
    forall tid :: tid in v.treasuries ==> tid in v'.treasuries && SameKey(v.treasuries[tid], v'.treasuries[tid])
  }

  /** Requests keep their identity, keys stay, records are only added, time passes. */
  ghost predicate Frame(s: State, s': State) {
    && BookFrame(s.system.book, s'.system.book) && VaultFrame(s.vault, s'.vault)
    && (forall g :: g in s.signings ==> g in s'.signings) && s.clock <= s'.clock
  }

  lemma TermsFrame(net: Net, b: Book, b': Book, rid: nat, auth: StoredAuthorization)
    requires BookFrame(b, b') && HasTerms(net, b, rid, auth)
    ensures HasTerms(net, b', rid, auth)
  {
    hide DecodeAddress;
  }

  lemma IdentityTerms(net: Net, r: Request, r': Request)
    requires SameIdentity(r, r')
    ensures TermsOf(net, r') == TermsOf(net, r)
  {
    hide DecodeAddress;
  }

  lemma InstructionFrame(b: Book, b': Book, i: Instruction)
    requires BookFrame(b, b') && InstructionOk(b, i)
    ensures InstructionOk(b', i)
  {
  }

  lemma JobFrame(net: Net, s: State, s': State, job: Job)
    requires Frame(s, s') && JobOk(net, s, job)
    ensures JobOk(net, s', job)
  {
    hide TermsOf, HasTerms;
    TermsFrame(net, s.system.book, s'.system.book, job.header.requestId, job.auth);
  }

  lemma SignatureFrame(net: Net, s: State, s': State, g: Signature)
    requires Frame(s, s') && SignatureOk(net, s, g)
    ensures SignatureOk(net, s', g)
  {
    hide TermsOf, PaysFor, BoundedBy;
    IdentityTerms(net, s.system.book.requests[g.body.requestId], s'.system.book.requests[g.body.requestId]);
  }

  lemma EmittedFrame(net: Net, s: State, s': State, body: ResultBody)
    requires Frame(s, s') && EmittedOk(net, s, body)
    ensures EmittedOk(net, s', body)
  {
    hide TermsOf;
    if body.Authorization? {
      IdentityTerms(net, s.system.book.requests[body.requestId], s'.system.book.requests[body.requestId]);
    }
  }

  lemma SettledFrame(net: Net, s: State, s': State, tx: Bytes32)
    requires Frame(s, s') && tx in s.system.settledBy && SettledTruly(net, s, tx)
    requires tx in s'.system.settledBy && s'.system.settledBy[tx] == s.system.settledBy[tx]
    requires
      var rid := s.system.settledBy[tx];
      rid in s.system.book.requests ==>
        rid in s'.system.book.requests && s'.system.book.requests[rid] == s.system.book.requests[rid]
    ensures SettledTruly(net, s', tx)
  {
    hide EncodeMemo, SameIdentity;
  }

  /** No call moves a settled request. */
  lemma SettledStays(net: Net, s: State, c: Call, tx: Bytes32)
    requires SystemInv(net.site, s.system) && Numbered(s.system.book) && Settlement.Possible(net.site, Direct(Event(s.clock, c)))
    requires tx in s.system.settledBy
    ensures
      var rid, b' := s.system.settledBy[tx], After(s.system.book, s.clock, c);
      rid in b'.requests && rid in s.system.book.requests && b'.requests[rid] == s.system.book.requests[rid]
  {
    hide Inv, Numbered, After, Settlement.Possible;
    DirectSettlesNothing(net.site, s.system.book, Event(s.clock, c), s.system.settledBy[tx]);
  }

  /** A request record that did not change is still good later. */
  lemma RequestFrame(net: Net, s: State, s': State, rid: nat)
    requires Frame(s, s') && rid in s.system.book.requests && RequestGood(net, s, rid)
    requires rid in s'.system.book.requests && s'.system.book.requests[rid] == s.system.book.requests[rid]
    ensures RequestGood(net, s', rid)
  {
    hide TermsOk, AcceptedFrom;
  }

  /** What a happening that leaves the contracts alone still has to show. */
  lemma EnclaveFrame(net: Net, s: State, s': State)
    requires WorldInv(net, s) && Frame(s, s') && s'.system == s.system
    requires VaultOk(net, s') && JobsOk(net, s') && SignaturesOk(net, s') && EmissionsOk(net, s')
    ensures WorldInv(net, s')
  {
    hide SystemInv, LogOk, VaultOk, JobsOk, SignaturesOk, EmissionsOk, RequestGood, SettledTruly, Frame, BoundOk;
    forall rid | rid in s'.system.book.requests ensures RequestGood(net, s', rid) {
      RequestFrame(net, s, s', rid);
    }
    forall tx | tx in s'.system.settledBy ensures SettledTruly(net, s', tx) {
      SettledFrame(net, s, s', tx);
    }
    forall tid | tid in s'.system.book.treasuries ensures BoundOk(s', tid) {
      BoundFrame(s, s', tid);
    }
  }

  lemma BoundFrame(s: State, s': State, tid: nat)
    requires Frame(s, s') && tid in s.system.book.treasuries && BoundOk(s, tid)
    requires tid in s'.system.book.treasuries
    requires s'.system.book.treasuries[tid].bound == s.system.book.treasuries[tid].bound
    requires s'.system.book.treasuries[tid].xrplAddress == s.system.book.treasuries[tid].xrplAddress
    ensures BoundOk(s', tid)
  {
  }

  /** What a happening that leaves the enclave alone still has to show. */
  lemma ChainFrame(net: Net, s: State, s': State)
    requires WorldInv(net, s) && Frame(s, s')
    requires s'.vault == s.vault && s'.jobs == s.jobs && s'.signings == s.signings && s'.emitted == s.emitted
    requires SystemInv(net.site, s'.system) && LogOk(s'.system.book)
    requires BoundsOk(s') && RequestsOk(net, s') && SettlementsOk(net, s')
    ensures WorldInv(net, s')
  {
    hide SystemInv, LogOk, BoundsOk, RequestsOk, SettlementsOk, SignatureOk, EmittedOk, JobOk, Frame, HasTerms, AddressOk;
    forall rid | rid in s'.vault.authorizations ensures HasTerms(net, s'.system.book, rid, s'.vault.authorizations[rid]) {
      FrameBooks(s, s');
      TermsFrame(net, s.system.book, s'.system.book, rid, s.vault.authorizations[rid]);
    }
    forall job | job in s'.jobs ensures JobOk(net, s', job) {
      JobFrame(net, s, s', job);
    }
    forall g | g in s'.signings ensures SignatureOk(net, s', g) {
      SignatureFrame(net, s, s', g);
    }
    forall body | body in s'.emitted ensures EmittedOk(net, s', body) {
      EmittedFrame(net, s, s', body);
    }
  }

  lemma FrameBooks(s: State, s': State)
    requires Frame(s, s')
    ensures BookFrame(s.system.book, s'.system.book)
  {
  }

  // ---- Time ----

  lemma TickKeepsInv(net: Net, s: State, seconds: nat)
    requires WorldInv(net, s)
    ensures WorldInv(net, s.(clock := s.clock + seconds))
  {
    hide SystemInv, LogOk, BoundOk, RequestGood, SettledTruly, SignatureOk, EmittedOk, JobOk, HasTerms, AddressOk, SameIdentity;
    var s' := s.(clock := s.clock + seconds);
    TickFrame(s, seconds);
    forall rid | rid in s'.system.book.requests ensures RequestGood(net, s', rid) {
      RequestFrame(net, s, s', rid);
    }
    forall tx | tx in s'.system.settledBy ensures SettledTruly(net, s', tx) {
      SettledFrame(net, s, s', tx);
    }
    forall tid | tid in s'.system.book.treasuries ensures BoundOk(s', tid) {
      BoundFrame(s, s', tid);
    }
    ChainFrame(net, s, s');
  }

  lemma TickFrame(s: State, seconds: nat)
    ensures Frame(s, s.(clock := s.clock + seconds))
  {
  }

  // ---- Calls ----

  /** A call leaves every request's identity alone. */
  lemma CallFrames(b: Book, now: nat, c: Call)
    requires Numbered(b)
    ensures BookFrame(b, After(b, now, c))
  {
    hide After, Numbered, Later;
    ConfigStep(b, now, c);
    forall rid | rid in b.requests
      ensures rid in After(b, now, c).requests && Later(b.requests[rid], After(b, now, c).requests[rid])
    {
      CallLater(b, now, c, rid);
    }
  }

  lemma CallLater(b: Book, now: nat, c: Call, rid: nat)
    requires Numbered(b) && rid in b.requests
    ensures rid in After(b, now, c).requests && Later(b.requests[rid], After(b, now, c).requests[rid])
  {
    hide Perform, Numbered, SameIdentity;
    RequestStep(b, now, c, rid);
    if Perform(b, now, c).Ok? {
      CallTerms(b, now, c, rid);
    }
  }

  lemma LogGrows(b: Book, b': Book)
    requires LogOk(b) && BookFrame(b, b') && SendsInOrder(b, b')
    ensures LogOk(b')
  {
    hide InstructionOk, BookFrame;
    forall i | i in b'.sent ensures InstructionOk(b', i) {
      if i in b.sent {
        InstructionFrame(b, b', i);
      } else {
        var k :| 0 <= k < |b'.sent| && b'.sent[k] == i;
        assert k >= |b.sent|;
      }
    }
  }

  lemma RejectedKeepsBook(b: Book, now: nat, c: Call)
    requires Perform(b, now, c).Err?
    ensures After(b, now, c) == b
  {
    hide Perform;
  }

  lemma CallKeepsLog(b: Book, now: nat, c: Call)
    requires LogOk(b) && Numbered(b) && AllStaged(b)
    ensures LogOk(After(b, now, c))
  {
    hide *;
    if Perform(b, now, c).Ok? {
      CallFrames(b, now, c);
      CallSends(b, now, c);
      LogGrows(b, After(b, now, c));
    } else {
      RejectedKeepsBook(b, now, c);
    }
  }

  lemma CallKeepsTerms(net: Net, s: State, c: Call, rid: nat, r: Request, r': Request)
    requires EmissionsOk(net, s) && SignaturesOk(net, s) && Authentic(s, c)
    requires rid in s.system.book.requests && r == s.system.book.requests[rid] && RequestGood(net, s, rid)
    requires SameIdentity(r, r') && TermsStep(s.system.book, s.clock, c, rid, r, r')
    ensures StageOk(r', s.clock) && TermsOk(net, r')
    ensures r'.signedBlobHash != Zero ==> exists g :: g in s.signings && AcceptedFrom(r', rid, g)
  {
    hide TermsOf, SignatureOk;
    IdentityTerms(net, r, r');
    if c.CallSubmitAuthorization? && c.res.body.Authorization? && c.res.body.requestId == rid {
      assert EmittedOk(net, s, c.res.body);
    } else if c.CallSubmitSignedPayment? && c.res.body.SignedPayment? && c.res.body.requestId == rid {
      assert EmittedOk(net, s, c.res.body);
      var g :| g in s.signings && g.body == c.res.body;
      SignedInTime(net, s, g);
      assert AcceptedFrom(r', rid, g);
    } else if r.signedBlobHash != Zero {
      var g :| g in s.signings && AcceptedFrom(r, rid, g);
      assert AcceptedFrom(r', rid, g);
    }
  }

  lemma SignedInTime(net: Net, s: State, g: Signature)
    requires SignaturesOk(net, s) && g in s.signings
    ensures g.at <= s.clock && g.body.SignedPayment?
  {
    assert SignatureOk(net, s, g);
  }

  lemma CallKeepsRequest(net: Net, s: State, c: Call, rid: nat)
    requires WorldInv(net, s) && Authentic(s, c) && Numbered(s.system.book)
    requires rid in After(s.system.book, s.clock, c).requests
    ensures
      var s' := s.(system := s.system.(book := After(s.system.book, s.clock, c)));
      RequestGood(net, s', rid)
  {
    var b, b' := s.system.book, After(s.system.book, s.clock, c);
    assert Perform(b, s.clock, c).Err? ==> b' == b;
    hide After, Perform, SystemInv, Numbered, SameIdentity, LogOk, VaultOk, JobsOk, SignaturesOk, EmissionsOk, BoundsOk,
         SettlementsOk, TermsStep, StageOk, TermsOk, AcceptedFrom;
    if rid !in b.requests {
      NewRequestGood(net, b, s.clock, c, rid);
    } else if Perform(b, s.clock, c).Ok? {
      assert RequestGood(net, s, rid);
      RequestStep(b, s.clock, c, rid);
      CallTerms(b, s.clock, c, rid);
      CallKeepsTerms(net, s, c, rid, b.requests[rid], b'.requests[rid]);
    } else {
      assert RequestGood(net, s, rid);
    }
  }

  lemma NewRequestGood(net: Net, b: Book, now: nat, c: Call, rid: nat)
    requires Numbered(b) && rid !in b.requests && rid in After(b, now, c).requests
    ensures
      var r := After(b, now, c).requests[rid];
      StageOk(r, now) && TermsOk(net, r) && r.signedBlobHash == Zero
  {
    hide After, Numbered, TermsOf;
    NewRequestTerms(b, now, c, rid);
  }

  lemma CallKeepsBound(net: Net, s: State, c: Call, tid: nat)
    requires EmissionsOk(net, s) && BoundsOk(s) && Authentic(s, c) && Numbered(s.system.book)
    requires tid in After(s.system.book, s.clock, c).treasuries
    ensures BoundOk(s.(system := s.system.(book := After(s.system.book, s.clock, c))), tid)
  {
    var b, b' := s.system.book, After(s.system.book, s.clock, c);
    assert Perform(b, s.clock, c).Err? ==> b' == b;
    hide After, Perform, Numbered, TermsOf;
    if tid !in b.treasuries {
      NewTreasuryUnbound(b, s.clock, c, tid);
    } else {
      assert BoundOk(s, tid);
      if Perform(b, s.clock, c).Ok? {
        CallAddress(b, s.clock, c, tid);
        if c.CallBind? && c.res.body.Bind? && c.res.body.treasuryId == tid {
          assert EmittedOk(net, s, c.res.body);
        }
      }
    }
  }

  lemma ChainStepFrame(s: State, system: System)
    requires BookFrame(s.system.book, system.book)
    ensures Frame(s, s.(system := system))
  {
  }

  lemma StagesHold(net: Net, s: State)
    requires WorldInv(net, s)
    ensures AllStaged(s.system.book)
    ensures forall rid :: rid in s.system.book.requests ==> StageOk(s.system.book.requests[rid], s.clock)
  {
    hide LogOk, VaultOk, JobsOk, SignaturesOk, EmissionsOk, BoundsOk, SettlementsOk, TermsOk, SignedOk, Numbered, TreasuryOk,
         ListOk, RequestOk, Conserved, Bijection, StageOk, Staged;
    forall rid | rid in s.system.book.requests
      ensures Staged(s.system.book.requests[rid]) && StageOk(s.system.book.requests[rid], s.clock)
    {
      assert RequestGood(net, s, rid);
      StateExists(s.system.book, rid);
      StageIsStaged(s.system.book.requests[rid], s.clock);
    }
  }

  lemma StageIsStaged(r: Request, clock: nat)
    requires StageOk(r, clock) && r.state != NONE
    ensures Staged(r)
  {
  }

  lemma ChainKeepsInv(net: Net, s: State, c: Call)
    requires WorldInv(net, s) && World.Possible(net, s, Chain(c))
    ensures WorldInv(net, Next(net, s, Chain(c)))
  {
    hide After, Inv, Bijection, Numbered, LogOk, VaultOk, JobsOk, SignaturesOk, EmissionsOk, RequestGood, BoundOk, SettledTruly,
         Frame, BookFrame, Settlement.Possible, Authentic;
    var b' := After(s.system.book, s.clock, c);
    var s' := s.(system := s.system.(book := b'));
    assert Next(net, s, Chain(c)) == s';
    InvNumbered(s.system.book);
    StepKeepsSystemInv(net.site, s.system, Direct(Event(s.clock, c)));
    CallFrames(s.system.book, s.clock, c);
    ChainStepFrame(s, s'.system);
    StagesHold(net, s);
    CallKeepsLog(s.system.book, s.clock, c);
    forall rid | rid in b'.requests ensures RequestGood(net, s', rid) {
      CallKeepsRequest(net, s, c, rid);
    }
    forall tid | tid in b'.treasuries ensures BoundOk(s', tid) {
      CallKeepsBound(net, s, c, tid);
    }
    forall tx | tx in s'.system.settledBy ensures SettledTruly(net, s', tx) {
      SettledStays(net, s, c, tx);
      SettledFrame(net, s, s', tx);
    }
    ChainFrame(net, s, s');
  }

  // ---- Settlement ----

  /** What an accepted proof shows. */
  lemma SettleEffect(v: Site, b: System, verified: bool, rid: nat, proof: Proof)
    requires Settles(v, b, Finalize(verified, rid, proof)) && Numbered(b.book)
    ensures verified && rid in b.book.requests
    ensures
      var r, body := b.book.requests[rid], proof.body;
      && body.status == 0 && body.hasMemoData && HashData(body.firstMemoData) == HashData(EncodeMemo(v.word, r.memoRef))
      && body.receivedAmount == r.amountDrops > 0 && body.receivingAddressHash == r.destinationHash
      && (r.treasuryId in b.book.treasuries ==> body.sourceAddressHash == b.book.treasuries[r.treasuryId].xrplAddressHash)
  {
    hide EncodeMemo;
  }

  /** The account a request is paid from is the one its treasury was bound to. */
  lemma SourceIsVault(s: State, rid: nat)
    requires Inv(s.system.book) && BoundsOk(s) && rid in s.system.book.requests
    ensures
      var tid := s.system.book.requests[rid].treasuryId;
      && tid in s.system.book.treasuries && tid in s.vault.treasuries
      && s.system.book.treasuries[tid].xrplAddressHash == HashText(s.vault.treasuries[tid].address)
  {
    hide Numbered, ListOk, Conserved;
    assert RequestOk(s.system.book, rid);
    assert TreasuryOk(s.system.book, s.system.book.requests[rid].treasuryId);
    assert BoundOk(s, s.system.book.requests[rid].treasuryId);
  }

  lemma ProofFulfils(net: Net, s: State, verified: bool, rid: nat, proof: Proof)
    requires WorldInv(net, s) && World.Possible(net, s, Settle(verified, rid, proof))
    requires Settles(net.site, s.system, Finalize(verified, rid, proof)) && Numbered(s.system.book)
    ensures rid in s.system.book.requests && net.fdc(proof.transactionId) == Some(proof.body)
    ensures Fulfils(net, s.vault, s.system.book.requests[rid], proof.body)
  {
    hide EncodeMemo, Inv, Bijection, Numbered, LogOk, VaultOk, JobsOk, SignaturesOk, EmissionsOk, RequestsOk, BoundsOk,
         SettlementsOk, Settles;
    SettleEffect(net.site, s.system, verified, rid, proof);
    SourceIsVault(s, rid);
  }

  lemma SettleKeepsInv(net: Net, s: State, verified: bool, rid: nat, proof: Proof)
    requires WorldInv(net, s) && World.Possible(net, s, Settle(verified, rid, proof))
    ensures WorldInv(net, Next(net, s, Settle(verified, rid, proof)))
  {
    hide FinalizePayment, After, Inv, Bijection, Numbered, LogOk, VaultOk, JobsOk, SignaturesOk, EmissionsOk, RequestGood, BoundOk,
         SettledTruly, Frame, EncodeMemo, SameIdentity, Settles;
    var a := Finalize(verified, rid, proof);
    var s' := s.(system := Step(net.site, s.system, a));
    assert Next(net, s, Settle(verified, rid, proof)) == s';
    InvNumbered(s.system.book);
    if Settles(net.site, s.system, a) {
      SettleWrites(net, s, verified, rid, proof);
    } else {
      UnsettledStep(net.site, s.system, a);
    }
  }

  lemma UnsettledStep(v: Site, s: System, a: Action)
    requires a.Finalize? && !Settles(v, s, a)
    ensures Step(v, s, a) == s
  {
    hide FinalizePayment;
  }

  lemma SettledRequestGood(net: Net, s: State, s': State, rid: nat, txId: Bytes32)
    requires rid in s.system.book.requests && RequestGood(net, s, rid)
    requires s.system.book.requests[rid].state == SIGNED || s.system.book.requests[rid].state == BROADCAST
    requires rid in s'.system.book.requests && s'.clock == s.clock && s'.signings == s.signings
    requires s'.system.book.requests[rid] == s.system.book.requests[rid].(xrplTxId := txId, state := SETTLED)
    ensures RequestGood(net, s', rid)
  {
    var r, r' := s.system.book.requests[rid], s'.system.book.requests[rid];
    IdentityTerms(net, r, r');
    hide TermsOf;
    var g :| g in s.signings && AcceptedFrom(r, rid, g);
    assert AcceptedFrom(r', rid, g);
  }

  lemma SettleFrames(b: Book, b': Book, rid: nat, r: Request)
    requires rid in b.requests && Later(b.requests[rid], r) && b' == b.(requests := b.requests[rid := r])
    ensures BookFrame(b, b')
  {
  }

  lemma SettleWrites(net: Net, s: State, verified: bool, rid: nat, proof: Proof)
    requires WorldInv(net, s) && World.Possible(net, s, Settle(verified, rid, proof))
    requires Settles(net.site, s.system, Finalize(verified, rid, proof)) && Numbered(s.system.book)
    ensures WorldInv(net, s.(system := Step(net.site, s.system, Finalize(verified, rid, proof))))
  {
    hide FinalizePayment, Inv, Bijection, Numbered, InstructionOk, VaultOk, JobsOk, SignaturesOk, EmissionsOk, RequestGood, BoundOk,
         SettledTruly, Frame, BookFrame, EncodeMemo, Settles, SystemInv, Step, PriorUse, World.Possible;
    var a := Finalize(verified, rid, proof);
    var s' := s.(system := Step(net.site, s.system, a));
    FinalizeEffect(net.site, s.system, a);
    ProofFulfils(net, s, verified, rid, proof);
    StepKeepsSystemInv(net.site, s.system, a);
    var r := s.system.book.requests[rid];
    SettleFrames(s.system.book, s'.system.book, rid, r.(xrplTxId := proof.transactionId, state := SETTLED));
    ChainStepFrame(s, s'.system);
    forall i | i in s'.system.book.sent ensures InstructionOk(s'.system.book, i) {
      InstructionFrame(s.system.book, s'.system.book, i);
    }
    forall k | k in s'.system.book.requests ensures RequestGood(net, s', k) {
      if k == rid {
        SettledRequestGood(net, s, s', rid, proof.transactionId);
      } else {
        RequestFrame(net, s, s', k);
      }
    }
    forall tid | tid in s'.system.book.treasuries ensures BoundOk(s', tid) {
      BoundFrame(s, s', tid);
    }
    forall tx | tx in s'.system.settledBy ensures SettledTruly(net, s', tx) {
      if tx == proof.transactionId {
        NewlySettled(net, s, s', proof, rid);
      } else {
        OtherSettled(net.site, s.system, tx, rid);
        SettledFrame(net, s, s', tx);
      }
    }
    ChainFrame(net, s, s');
  }

  lemma OtherSettled(v: Site, s: System, tx: Bytes32, rid: nat)
    requires SystemInv(v, s) && tx in s.settledBy && rid in s.book.requests
    requires s.book.requests[rid].state == SIGNED || s.book.requests[rid].state == BROADCAST
    ensures s.settledBy[tx] in s.book.requests && s.settledBy[tx] != rid
  {
    hide Inv;
  }

  lemma NewlySettled(net: Net, s: State, s': State, proof: Proof, rid: nat)
    requires rid in s.system.book.requests && Fulfils(net, s.vault, s.system.book.requests[rid], proof.body)
    requires net.fdc(proof.transactionId) == Some(proof.body) && s'.vault == s.vault
    requires proof.transactionId in s'.system.settledBy && s'.system.settledBy[proof.transactionId] == rid
    requires rid in s'.system.book.requests
    requires s'.system.book.requests[rid] == s.system.book.requests[rid].(xrplTxId := proof.transactionId, state := SETTLED)
    ensures SettledTruly(net, s', proof.transactionId)
  {
    hide EncodeMemo;
  }
}
