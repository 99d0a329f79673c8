/** What every payment in the protocol goes back to: one ciphertext naming one request, granted within
    the caps the enclave held, and settled only by a payment that fulfils it. */
module Payloads {
  import opened Wrappers
  import opened Bytes
  import opened Protocol
  import opened ClassicAddress
  import opened Books
  import opened BookInvariant
  import opened BookRuns
  import opened BookTerms
  import opened Settlement
  import opened EnclaveState
  import opened Payments
  import EnclaveRules
  import opened World
  import opened WorldInvariant
  import opened WorldRuns

  /** What a request's ciphertext decrypts to. */
  function PayloadOf(net: Net, r: Request): Option<PaymentInstruction> {
    match r.payloadHash
    case Keccak(Data(ciphertext)) => net.crypto.decrypt(ciphertext)
    case _ => None
  }

  /** Some policy the enclave has held for the treasury allows the amount, by itself and in total. */
  ghost predicate Allowed(s: State, tid: nat, amount: nat) {
    exists p :: (tid, p) in s.adopted && amount <= p.maxPerPaymentDrops && amount <= p.maxTotalDrops
  }

  /** The request's payload names this chain, this controller, its treasury and the request itself; it asks
      for a positive amount that a policy allowed, to be paid to some other account. */
  ghost predicate Meant(net: Net, s: State, rid: nat) {
    && rid in s.system.book.requests
    && var b, r := s.system.book, s.system.book.requests[rid];
       && PayloadOf(net, r).Some? && var pi := PayloadOf(net, r).value;
          && pi.chainId == b.config.chainId && pi.controller == b.config.self
          && pi.treasuryId == r.treasuryId && pi.requestId == rid
          && pi.amountDrops > 0 && Allowed(s, r.treasuryId, pi.amountDrops)
          && r.treasuryId in s.vault.treasuries && pi.destination != s.vault.treasuries[r.treasuryId].address
  }

  /** Whatever speaks of a payment speaks of a request that was meant: a grant in hand, a signing under way,
      a reply the enclave has emitted, a request with terms. */
  ghost predicate AllMeant(net: Net, s: State) {
    && (forall rid :: rid in s.vault.authorizations ==> Meant(net, s, rid))
    && (forall job :: job in s.jobs ==> Meant(net, s, job.header.requestId))
    && (forall body :: body in s.emitted && Speaks(body) ==> Meant(net, s, body.requestId))
    && (forall g :: g in s.signings ==> g.body in s.emitted)
    && (forall rid :: rid in s.system.book.requests && s.system.book.requests[rid].destinationHash != Zero ==> Meant(net, s, rid))
  }

  predicate Speaks(body: ResultBody) {
    body.Authorization? || body.SignedPayment?
  }

  /** Nothing that is meant is unmeant later. */
  lemma MeantLater(net: Net, s: State, s': State, rid: nat)
    requires Meant(net, s, rid) && BookFrame(s.system.book, s'.system.book) && VaultFrame(s.vault, s'.vault)
    requires s.adopted <= s'.adopted
    ensures Meant(net, s', rid)
  {
    var r := s.system.book.requests[rid];
    var amount := PayloadOf(net, r).value.amountDrops;
    var p :| (r.treasuryId, p) in s.adopted && amount <= p.maxPerPaymentDrops && amount <= p.maxTotalDrops;
    assert (r.treasuryId, p) in s'.adopted;
    assert Allowed(s', r.treasuryId, amount);
    hide Allowed;
  }

  /** The enclave's policies are among those it is known to have held. */
  ghost predicate Held(s: State) {
    PoliciesOf(s.vault) <= s.adopted
  }

  ghost predicate PayloadInv(net: Net, s: State) {
    WorldInv(net, s) && Held(s) && AllMeant(net, s)
  }

  // ---- The enclave's side ----

  lemma GrantMeant(net: Net, s: State, h: Header, ciphertext: seq<byte>, nodeUp: bool, s': State)
    requires HandleAuthorizePayment(net.crypto, s.vault, h, ciphertext, nodeUp).reply.Ok? && Held(s)
    requires HeaderFor(s.system.book, h) && s.system.book.requests[h.requestId].payloadHash == HashData(ciphertext)
    requires h.chainId == s.system.book.config.chainId && h.controller == s.system.book.config.self
    requires s'.system == s.system && s.adopted <= s'.adopted && VaultFrame(s.vault, s'.vault)
    ensures Meant(net, s', h.requestId)
  {
    hide HandleAuthorizePayment;
    EnclaveRules.Granted(net.crypto, s.vault, h, ciphertext, nodeUp);
    var t := s.vault.treasuries[h.treasuryId];
    assert (h.treasuryId, t.policy) in s'.adopted;
    assert Allowed(s', h.treasuryId, net.crypto.decrypt(ciphertext).value.amountDrops);
  }

  /** Requests keep their identity, keys stay, policies held stay known. */
  ghost predicate Grew(s: State, s': State) {
    BookFrame(s.system.book, s'.system.book) && VaultFrame(s.vault, s'.vault) && s.adopted <= s'.adopted
  }

  lemma AllMeantLater(net: Net, s: State, s': State)
    requires Grew(s, s')
    ensures forall rid :: Meant(net, s, rid) ==> Meant(net, s', rid)
  {
    hide Meant, BookFrame, VaultFrame;
    forall rid | Meant(net, s, rid) ensures Meant(net, s', rid) {
      MeantLater(net, s, s', rid);
    }
  }

  // ---- The contracts' side ----

  lemma CallMeant(net: Net, s: State, c: Call, rid: nat)
    requires AllMeant(net, s) && Authentic(s, c) && Numbered(s.system.book)
    requires rid in After(s.system.book, s.clock, c).requests
    requires After(s.system.book, s.clock, c).requests[rid].destinationHash != Zero
    ensures Meant(net, s, rid)
  {
    var b, b' := s.system.book, After(s.system.book, s.clock, c);
    assert Perform(b, s.clock, c).Err? ==> b' == b;
    hide After, Perform, Meant, Numbered;
    if rid !in b.requests {
      NewRequestTerms(b, s.clock, c, rid);
    } else if Perform(b, s.clock, c).Ok? {
      CallTerms(b, s.clock, c, rid);
      if c.CallSubmitAuthorization? && c.res.body.Authorization? && c.res.body.requestId == rid {
        assert Speaks(c.res.body) && c.res.body in s.emitted;
      }
    }
  }

  /** What a move of the contracts has to show. */
  lemma ContractsMeant(net: Net, s: State, s': State)
    requires AllMeant(net, s) && Held(s) && BookFrame(s.system.book, s'.system.book)
    requires s'.vault == s.vault && s'.jobs == s.jobs && s'.emitted == s.emitted && s'.signings == s.signings && s'.adopted == s.adopted
    requires forall rid :: rid in s'.system.book.requests && s'.system.book.requests[rid].destinationHash != Zero ==> Meant(net, s, rid)
    ensures AllMeant(net, s') && Held(s')
  {
    hide Meant, BookFrame, VaultFrame;
    VaultStays(s.vault);
    AllMeantLater(net, s, s');
  }

  lemma ChainMeant(net: Net, s: State, c: Call)
    requires PayloadInv(net, s) && World.Possible(net, s, Chain(c))
    ensures AllMeant(net, Next(net, s, Chain(c))) && Held(Next(net, s, Chain(c)))
  {
    var s' := Next(net, s, Chain(c));
    assert s' == s.(system := s.system.(book := After(s.system.book, s.clock, c)));
    assert Authentic(s, c);
    hide After, AllMeant, Meant, Held, Numbered, World.Possible, BookFrame, WorldInv;
    WorldNumbered(net, s);
    CallFrames(s.system.book, s.clock, c);
    forall rid | rid in s'.system.book.requests && s'.system.book.requests[rid].destinationHash != Zero ensures Meant(net, s, rid) {
      CallMeant(net, s, c, rid);
    }
    ContractsMeant(net, s, s');
  }

  lemma WorldNumbered(net: Net, s: State)
    requires WorldInv(net, s)
    ensures Inv(s.system.book) && Numbered(s.system.book)
  {
    hide Inv, LogOk, VaultOk, JobsOk, SignaturesOk, EmissionsOk, BoundsOk, RequestsOk, SettlementsOk, Numbered, Bijection;
    InvNumbered(s.system.book);
  }

  lemma SettleFrame(v: Site, s: System, a: Action)
    requires a.Finalize? && Numbered(s.book)
    ensures BookFrame(s.book, Step(v, s, a).book)
    ensures forall rid :: rid in Step(v, s, a).book.requests ==>
      rid in s.book.requests && Step(v, s, a).book.requests[rid].destinationHash == s.book.requests[rid].destinationHash
  {
    hide FinalizePayment, Settles;
    if Settles(v, s, a) {
      FinalizeEffect(v, s, a);
    } else {
      UnsettledStep(v, s, a);
    }
  }

  lemma SettleMeant(net: Net, s: State, e: Happening)
    requires PayloadInv(net, s) && e.Settle? && World.Possible(net, s, e)
    ensures AllMeant(net, Next(net, s, e)) && Held(Next(net, s, e))
  {
    var s' := Next(net, s, e);
    assert s' == s.(system := Step(net.site, s.system, Finalize(e.verified, e.rid, e.proof)));
    hide Step, Meant, Held, Numbered, World.Possible, BookFrame, WorldInv;
    WorldNumbered(net, s);
    SettleFrame(net.site, s.system, Finalize(e.verified, e.rid, e.proof));
    ContractsMeant(net, s, s');
  }

  lemma TickMeant(net: Net, s: State, seconds: nat)
    requires PayloadInv(net, s)
    ensures AllMeant(net, s.(clock := s.clock + seconds))
  {
    hide Meant, WorldInv, BookFrame, VaultFrame;
    VaultStays(s.vault);
    BookStays(s.system.book);
    AllMeantLater(net, s, s.(clock := s.clock + seconds));
  }

  lemma BookStays(b: Book)
    ensures BookFrame(b, b)
  {
  }

  // ---- Handlers ----

  /** What a handler other than signing does to the grants in hand and to what has been said. */
  lemma HandleMeant(net: Net, s: State, i: Instruction, input: Input, s': State)
    requires AllMeant(net, s) && Held(s) && InstructionOk(s.system.book, i) && !i.command.SignXrplPayment?
    requires s'.system == s.system && s'.vault == Handle(net.crypto, s.vault, i, input).vault && Grew(s, s')
    ensures
      var handled := Handle(net.crypto, s.vault, i, input);
      && (forall rid :: rid in handled.vault.authorizations ==> Meant(net, s', rid))
      && (handled.reply.Ok? && Speaks(handled.reply.value) ==> Meant(net, s', handled.reply.value.requestId))
  {
    hide Meant, BookFrame, VaultFrame;
    AllMeantLater(net, s, s');
    match i.command
    case CreateTreasuryKey(p) => CreateKeyEffect(net.crypto, s.vault, i.header, p, input.key);
    case RegisterPolicy(p) =>
    case AuthorizePayment(ciphertext) =>
      hide RefusePayment;
      if Handle(net.crypto, s.vault, i, input).reply.Ok? {
        GrantMeant(net, s, i.header, ciphertext, input.nodeUp, s');
      }
    case SignXrplPayment =>
  }

  /** What a move of the enclave has to show. */
  lemma EnclaveMeant(net: Net, s: State, s': State)
    requires AllMeant(net, s) && Grew(s, s') && s'.system == s.system
    requires forall rid :: rid in s'.vault.authorizations ==> Meant(net, s', rid)
    requires forall job :: job in s'.jobs ==> job in s.jobs || Meant(net, s', job.header.requestId)
    requires s.emitted <= s'.emitted
    requires forall body :: body in s'.emitted && Speaks(body) ==> body in s.emitted || Meant(net, s', body.requestId)
    requires forall g :: g in s'.signings ==> g in s.signings || g.body in s'.emitted
    ensures AllMeant(net, s')
  {
    hide Meant, Grew;
    AllMeantLater(net, s, s');
  }

  lemma Adopts(s: State, s': State, vault: Vault)
    requires s'.vault == vault && s'.adopted == s.adopted + PoliciesOf(vault)
    ensures Held(s') && s.adopted <= s'.adopted
  {
  }

  /** A handler has run: its vault, its policies, its reply. */
  ghost predicate Moved(s: State, s': State, handled: Handled) {
    && s'.system == s.system && s'.vault == handled.vault && s'.adopted == s.adopted + PoliciesOf(handled.vault)
    && s'.emitted == (if handled.reply.Ok? then s.emitted + {handled.reply.value} else s.emitted)
    && (forall g :: g in s'.signings ==> g in s.signings || (handled.reply.Ok? && g.body == handled.reply.value))
  }

  lemma DeliverMoves(net: Net, s: State, i: nat, key: Option<SigningKey>, nodeUp: bool)
    requires i < |s.system.book.sent|
    ensures
      var s' := DeliverStep(net, s, i, key, nodeUp);
      Moved(s, s', Handle(net.crypto, s.vault, s.system.book.sent[i], Input(key, nodeUp, None, None, s.clock))) && s'.jobs == s.jobs
  {
    hide Handle, PoliciesOf;
  }

  lemma DeliverMeant(net: Net, s: State, s': State, i: Instruction, input: Input)
    requires AllMeant(net, s) && Held(s) && VaultOk(net, s) && InstructionOk(s.system.book, i) && !i.command.SignXrplPayment?
    requires Moved(s, s', Handle(net.crypto, s.vault, i, input)) && s'.jobs == s.jobs
    ensures AllMeant(net, s') && Held(s')
  {
    hide Handle, Meant, Held, BookFrame, VaultFrame, InstructionOk, VaultOk, PoliciesOf, EmittedOk;
    var handled := Handle(net.crypto, s.vault, i, input);
    HandleKeepsVault(net, s, i, input);
    Adopts(s, s', handled.vault);
    BookStays(s.system.book);
    HandleMeant(net, s, i, input, s');
    EnclaveMeant(net, s, s');
  }

  lemma BeginMeant(net: Net, s: State, h: Header)
    requires AllMeant(net, s) && Held(s)
    ensures AllMeant(net, BeginStep(s, h)) && Held(BeginStep(s, h))
  {
    hide Meant, BookFrame, VaultFrame;
    BookStays(s.system.book);
    VaultStays(s.vault);
    AllMeantLater(net, s, BeginStep(s, h));
    if BeginSign(s.vault, h).Ok? {
      assert Meant(net, s, h.requestId);
    }
    EnclaveMeant(net, s, BeginStep(s, h));
  }

  lemma FinishMoves(net: Net, s: State, j: nat, sequence: Option<uint32>, ledger: Option<uint32>)
    requires j < |s.jobs|
    ensures
      var s' := FinishStep(net, s, j, sequence, ledger);
      && Moved(s, s', FinishSign(net.crypto, s.vault, s.jobs[j], Input(None, true, sequence, ledger, s.clock)))
      && forall job :: job in s'.jobs ==> job in s.jobs
  {
    hide FinishSign, PoliciesOf;
  }

  lemma FinishMeant(net: Net, s: State, s': State, job: Job, input: Input)
    requires AllMeant(net, s) && Held(s) && job in s.jobs && Moved(s, s', FinishSign(net.crypto, s.vault, job, input))
    requires forall job :: job in s'.jobs ==> job in s.jobs
    ensures AllMeant(net, s') && Held(s')
  {
    hide FinishSign, Meant, Held, BookFrame, VaultFrame, PoliciesOf;
    FinishChanges(net.crypto, s.vault, job, input);
    VaultFramed(s.vault, s'.vault);
    Adopts(s, s', s'.vault);
    BookStays(s.system.book);
    AllMeantLater(net, s, s');
    assert Meant(net, s, job.header.requestId);
    EnclaveMeant(net, s, s');
  }

  lemma FinishChanges(crypto: Crypto, v: Vault, job: Job, input: Input)
    ensures
      var handled := FinishSign(crypto, v, job, input);
      && handled.vault.treasuries == v.treasuries
      && (forall rid :: rid in handled.vault.authorizations ==> rid in v.authorizations)
      && (handled.reply.Ok? ==> handled.reply.value.SignedPayment? && handled.reply.value.requestId == job.header.requestId)
  {
    hide SignJob;
  }

  lemma VaultFramed(v: Vault, v': Vault)
    requires v'.treasuries == v.treasuries
    ensures VaultFrame(v, v')
  {
  }

  lemma EnclaveStepMeant(net: Net, s: State, e: Happening)
    requires AllMeant(net, s) && Held(s) && VaultOk(net, s) && LogOk(s.system.book) && World.Possible(net, s, e)
    requires e.Deliver? || e.BeginSigning? || e.FinishSigning?
    ensures AllMeant(net, Next(net, s, e)) && Held(Next(net, s, e))
  {
    hide AllMeant, Held, VaultOk, InstructionOk, DeliverStep, BeginStep, FinishStep, Moved;
    match e
    case Deliver(i, key, nodeUp) =>
      DeliverMoves(net, s, i, key, nodeUp);
      DeliverMeant(net, s, Next(net, s, e), s.system.book.sent[i], Input(key, nodeUp, None, None, s.clock));
    case BeginSigning(i) => BeginMeant(net, s, s.system.book.sent[i].header);
    case FinishSigning(j, sequence, ledger) =>
      FinishMoves(net, s, j, sequence, ledger);
      FinishMeant(net, s, Next(net, s, e), s.jobs[j], Input(None, true, sequence, ledger, s.clock));
  }

  lemma EnclaveParts(net: Net, s: State)
    requires WorldInv(net, s)
    ensures VaultOk(net, s) && LogOk(s.system.book)
  {
    hide SystemInv, LogOk, VaultOk, JobsOk, SignaturesOk, EmissionsOk, BoundsOk, RequestsOk, SettlementsOk;
  }

  lemma NextMeant(net: Net, s: State, e: Happening)
    requires PayloadInv(net, s)
    ensures PayloadInv(net, Next(net, s, e))
  {
    NextKeepsInv(net, s, e);
    if World.Possible(net, s, e) {
      if e.Chain? || e.Settle? || e.Tick? {
        ContractStepMeant(net, s, e);
      } else {
        EnclaveParts(net, s);
        hide WorldInv, AllMeant, Held, World.Possible, Next;
        EnclaveStepMeant(net, s, e);
      }
    }
  }

  lemma ContractStepMeant(net: Net, s: State, e: Happening)
    requires PayloadInv(net, s) && World.Possible(net, s, e) && (e.Chain? || e.Settle? || e.Tick?)
    ensures AllMeant(net, Next(net, s, e)) && Held(Next(net, s, e))
  {
    hide WorldInv, AllMeant, Held, Step;
    match e
    case Tick(seconds) =>
      TickMeant(net, s, seconds);
      HeldTicks(s, seconds);
    case Chain(call) => ChainMeant(net, s, call);
    case Settle(_, _, _) => SettleMeant(net, s, e);
  }

  lemma HeldTicks(s: State, seconds: nat)
    requires Held(s)
    ensures Held(s.(clock := s.clock + seconds))
  {
  }

  lemma {:induction false} TraceMeant(net: Net, config: Config, tr: Trace, i: nat)
    requires Wired(net, config) && TraceOf(net, config, tr) && i < |tr.states|
    ensures PayloadInv(net, tr.states[i])
  {
    hide WorldInv, Next, Wired;
    if i == 0 {
      var clock :| tr.states[0] == Start(config, clock);
      StartInv(net, config, clock);
    } else {
      TraceMeant(net, config, tr, i - 1);
      NextMeant(net, tr.states[i - 1], tr.happenings[i - 1]);
      assert Follows(net, tr, i - 1);
    }
  }

  lemma ReachableMeant(net: Net, config: Config, s: State)
    requires Wired(net, config) && Reachable(net, config, s)
    ensures PayloadInv(net, s)
  {
    hide PayloadInv, Wired, Follows;
    var tr :| TraceOf(net, config, tr) && Last(tr) == s;
    TraceMeant(net, config, tr, |tr.states| - 1);
  }

  // ---- What it comes to ----

  /** In every reachable state, every request with a grant in hand, a signing under way, an emitted
      authorization or signature, or recorded terms, was named by its own ciphertext: this chain, this
      controller, its treasury, the request itself. The amount was positive and within both caps of a policy
      the enclave held, and the destination is not the treasury's own account. */
  lemma EveryPaymentMeant(net: Net, config: Config, s: State, rid: nat)
    requires Wired(net, config) && Reachable(net, config, s)
    requires || rid in s.vault.authorizations
             || (exists job :: job in s.jobs && job.header.requestId == rid)
             || (exists body :: body in s.emitted && Speaks(body) && body.requestId == rid)
             || (exists g :: g in s.signings && g.body.SignedPayment? && g.body.requestId == rid)
             || (rid in s.system.book.requests && s.system.book.requests[rid].destinationHash != Zero)
    ensures Meant(net, s, rid)
  {
    hide Wired, Reachable, WorldInv, Meant, Held;
    ReachableMeant(net, config, s);
    if g :| g in s.signings && g.body.SignedPayment? && g.body.requestId == rid {
      assert Speaks(g.body);
    }
  }

  /** One ciphertext is granted, signed or recorded for at most one request. */
  lemma OnePayloadOneRequest(net: Net, s: State, rid: nat, other: nat)
    requires Meant(net, s, rid) && Meant(net, s, other)
    requires s.system.book.requests[rid].payloadHash == s.system.book.requests[other].payloadHash
    ensures rid == other
  {
    hide Allowed;
  }

  /** In every reachable state, a settled request was paid: FDC attested a successful transaction with the id
      on record, from the treasury's own account to the recorded destination, of the recorded amount, with the
      request's memo; and that destination and amount are what the request's ciphertext asks for. */
  lemma SettlementsAreTrue(net: Net, config: Config, s: State, rid: nat)
    requires Wired(net, config) && Reachable(net, config, s) && IsSettled(s.system.book, rid)
    ensures
      var r := s.system.book.requests[rid];
      && net.fdc(r.xrplTxId).Some? && PayloadOf(net, r).Some? && r.treasuryId in s.system.book.treasuries
      && r.treasuryId in s.vault.treasuries
      && var body, pi := net.fdc(r.xrplTxId).value, PayloadOf(net, r).value;
         && body.status == 0 && body.hasMemoData
         && body.sourceAddressHash == s.system.book.treasuries[r.treasuryId].xrplAddressHash
            == HashText(s.vault.treasuries[r.treasuryId].address)
         && body.receivingAddressHash == r.destinationHash == HashText(pi.destination)
         && body.receivedAmount == r.amountDrops == pi.amountDrops > 0
         && body.firstMemoData == [0x42, 0x53, 0x46, 0x31] + net.crypto.word(
              MemoRef(s.system.book.config.chainId, s.system.book.config.self, r.treasuryId, rid, r.nonce))
         && pi.requestId == rid
  {
    hide Wired, Reachable, AllMeant, Held, WorldInv, Fulfils, Inv, Numbered, Bijection, BoundsOk, Meant, TermsOf, EncodeMemo;
    ReachableMeant(net, config, s);
    WorldNumbered(net, s);
    SettledParts(net, s, rid);
    SettledOrigin(net, s, rid);
    SettledPayment(net, s, rid);
  }

  lemma SettledParts(net: Net, s: State, rid: nat)
    requires WorldInv(net, s) && IsSettled(s.system.book, rid)
    ensures BoundsOk(s)
    ensures
      var r := s.system.book.requests[rid];
      && net.fdc(r.xrplTxId).Some? && Fulfils(net, s.vault, r, net.fdc(r.xrplTxId).value)
      && TermsOk(net, r) && r.destinationHash != Zero
  {
    hide Inv, LogOk, VaultOk, JobsOk, SignaturesOk, EmissionsOk, BoundsOk, Fulfils, TermsOk, SignedOk;
    var r := s.system.book.requests[rid];
    assert SettledTruly(net, s, r.xrplTxId);
    assert RequestGood(net, s, rid);
  }

  /** What the payload asks for is what is on record. */
  lemma SettledOrigin(net: Net, s: State, rid: nat)
    requires AllMeant(net, s) && rid in s.system.book.requests
    requires TermsOk(net, s.system.book.requests[rid]) && s.system.book.requests[rid].destinationHash != Zero
    ensures
      var r := s.system.book.requests[rid];
      && PayloadOf(net, r).Some? && var pi := PayloadOf(net, r).value;
         && r.destinationHash == HashText(pi.destination) && r.amountDrops == pi.amountDrops > 0 && pi.requestId == rid
  {
    hide DecodeAddress, Allowed;
    assert Meant(net, s, rid);
  }

  lemma SettledPayment(net: Net, s: State, rid: nat)
    requires Inv(s.system.book) && BoundsOk(s) && rid in s.system.book.requests
    requires
      var r := s.system.book.requests[rid];
      net.fdc(r.xrplTxId).Some? && Fulfils(net, s.vault, r, net.fdc(r.xrplTxId).value)
    ensures
      var r := s.system.book.requests[rid];
      && r.treasuryId in s.system.book.treasuries && r.treasuryId in s.vault.treasuries
      && var body := net.fdc(r.xrplTxId).value;
         && body.status == 0 && body.hasMemoData
         && body.sourceAddressHash == s.system.book.treasuries[r.treasuryId].xrplAddressHash
            == HashText(s.vault.treasuries[r.treasuryId].address)
         && body.receivingAddressHash == r.destinationHash && body.receivedAmount == r.amountDrops
         && body.firstMemoData == [0x42, 0x53, 0x46, 0x31] + net.crypto.word(
              MemoRef(s.system.book.config.chainId, s.system.book.config.self, r.treasuryId, rid, r.nonce))
  {
    hide Numbered, TreasuryOk, ListOk, Conserved, BoundsOk;
    SourceIsVault(s, rid);
    assert RequestOk(s.system.book, rid);
  }
}
