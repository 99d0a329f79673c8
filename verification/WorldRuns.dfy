/** The enclave's half of the invariant, and whole histories. */
module WorldRuns {
  import opened Wrappers
  import opened Bytes
  import opened Protocol
  import opened ClassicAddress
  import opened Payments
  import opened Books
  import opened BookTerms
  import opened Settlement
  import opened EnclaveState
  import opened EnclaveRuns
  import opened World
  import opened WorldInvariant

  /** The enclave moved: keys stay, and every new record is good. */
  lemma EnclaveMoveKeepsInv(net: Net, s: State, s': State)
    requires WorldInv(net, s) && s'.system == s.system && s'.clock == s.clock
    requires VaultFrame(s.vault, s'.vault) && VaultOk(net, s')
    requires forall g :: g in s.signings ==> g in s'.signings
    requires forall job :: job in s'.jobs ==> job in s.jobs || JobOk(net, s', job)
    requires forall g :: g in s'.signings ==> g in s.signings || SignatureOk(net, s', g)
    requires forall body :: body in s'.emitted ==> body in s.emitted || EmittedOk(net, s', body)
    ensures WorldInv(net, s')
  {
    hide SystemInv, LogOk, VaultOk, BoundsOk, RequestsOk, SettlementsOk, SignatureOk, EmittedOk, JobOk, VaultFrame, Frame;
    MoveFrame(s, s');
    forall job | job in s'.jobs ensures JobOk(net, s', job) {
      if job in s.jobs {
        JobFrame(net, s, s', job);
      }
    }
    forall g | g in s'.signings ensures SignatureOk(net, s', g) {
      if g in s.signings {
        SignatureFrame(net, s, s', g);
      }
    }
    forall body | body in s'.emitted ensures EmittedOk(net, s', body) {
      if body in s.emitted {
        EmittedFrame(net, s, s', body);
      }
    }
    EnclaveFrame(net, s, s');
  }

  lemma MoveFrame(s: State, s': State)
    requires s'.system == s.system && s'.clock == s.clock && VaultFrame(s.vault, s'.vault)
    requires forall g :: g in s.signings ==> g in s'.signings
    ensures Frame(s, s')
  {
  }

  // ---- What one handler does to the records ----

  lemma CreateKeyVault(net: Net, s: State, h: Header, p: Policy, key: Option<SigningKey>)
    requires VaultOk(net, s)
    ensures
      var handled := HandleCreateTreasuryKey(net.crypto, s.vault, h, p, key);
      && VaultFrame(s.vault, handled.vault) && VaultOk(net, s.(vault := handled.vault))
      && (handled.reply.Ok? ==> EmittedOk(net, s.(vault := handled.vault), handled.reply.value))
  {
    hide *;
    CreateKeyEffect(net.crypto, s.vault, h, p, key);
    CreateKeyVaultOk(net, s, HandleCreateTreasuryKey(net.crypto, s.vault, h, p, key), h.treasuryId);
  }

  /** The handler refuses, or adds one treasury with the address of its account. */
  ghost predicate AddsKey(crypto: Crypto, v: Vault, handled: Handled, tid: nat) {
    if handled.reply.Err? then handled.vault == v
    else
      && tid !in v.treasuries && tid in handled.vault.treasuries
      && handled.vault == v.(treasuries := v.treasuries[tid := handled.vault.treasuries[tid]])
      && var t := handled.vault.treasuries[tid];
         EncodeAddress(crypto.checksum, t.accountId) == Ok(t.address) && handled.reply.value.Bind?
         && handled.reply.value.treasuryId == tid && handled.reply.value.xrplAddress == t.address
  }

  lemma CreateKeyEffect(crypto: Crypto, v: Vault, h: Header, p: Policy, key: Option<SigningKey>)
    ensures AddsKey(crypto, v, HandleCreateTreasuryKey(crypto, v, h, p, key), h.treasuryId)
  {
    hide DecodeAddress;
  }

  lemma CreateKeyVaultOk(net: Net, s: State, handled: Handled, tid: nat)
    requires VaultOk(net, s) && AddsKey(net.crypto, s.vault, handled, tid)
    ensures VaultFrame(s.vault, handled.vault) && VaultOk(net, s.(vault := handled.vault))
    ensures handled.reply.Ok? ==> EmittedOk(net, s.(vault := handled.vault), handled.reply.value)
  {
    hide TermsOf, DecodeAddress, EncodeAddress;
  }

  lemma RegisterPolicyVault(net: Net, s: State, h: Header, p: Policy)
    requires VaultOk(net, s)
    ensures
      var handled := HandleRegisterPolicy(s.vault, h, p);
      && VaultFrame(s.vault, handled.vault) && VaultOk(net, s.(vault := handled.vault))
      && (handled.reply.Ok? ==> EmittedOk(net, s.(vault := handled.vault), handled.reply.value))
  {
    hide TermsOf, DecodeAddress, EncodeAddress;
  }

  /** An authorization the enclave grants holds the terms its request stands for. */
  lemma AuthorizeVault(net: Net, s: State, h: Header, ciphertext: seq<byte>, nodeUp: bool)
    requires VaultOk(net, s) && HeaderFor(s.system.book, h)
    requires s.system.book.requests[h.requestId].payloadHash == HashData(ciphertext)
    ensures
      var handled := HandleAuthorizePayment(net.crypto, s.vault, h, ciphertext, nodeUp);
      && VaultFrame(s.vault, handled.vault) && VaultOk(net, s.(vault := handled.vault))
      && (handled.reply.Ok? ==> EmittedOk(net, s.(vault := handled.vault), handled.reply.value))
  {
    hide DecodeAddress, EncodeAddress;
  }

  lemma FinishVault(net: Net, s: State, job: Job, sequence: Option<uint32>, ledger: Option<uint32>)
    requires VaultOk(net, s) && JobOk(net, s, job)
    ensures
      var handled := FinishSign(net.crypto, s.vault, job, Input(None, true, sequence, ledger, s.clock));
      && VaultFrame(s.vault, handled.vault) && VaultOk(net, s.(vault := handled.vault))
      && (handled.reply.Ok? ==> (
           && ledger.Some? && handled.reply.value.SignedPayment?
           && SignatureOk(net, s.(vault := handled.vault), Signature(handled.reply.value, s.clock, ledger.value))))
  {
    hide DecodeAddress, EncodeAddress, TermsOf, SignJob, PaysFor, BoundedBy;
    var input := Input(None, true, sequence, ledger, s.clock);
    if SignJob(net.crypto, job, input).Ok? {
      JobPays(net.crypto, job, input);
      TermsIdentity(net, s.system.book.requests[job.header.requestId], job.auth);
    }
  }

  lemma TermsIdentity(net: Net, r: Request, auth: StoredAuthorization)
    requires TermsOf(net, r) == Some(auth)
    ensures auth.treasuryId == r.treasuryId && auth.memoRef == r.memoRef && auth.expiresAt == r.expiresAt
    ensures DecodeAddress(net.crypto.checksum, auth.destination).Ok? && auth.amountDrops > 0
  {
    hide DecodeAddress;
  }

  // ---- The happenings ----

  lemma HandleKeepsVault(net: Net, s: State, instruction: Instruction, input: Input)
    requires VaultOk(net, s) && InstructionOk(s.system.book, instruction) && !instruction.command.SignXrplPayment?
    ensures
      var handled := Handle(net.crypto, s.vault, instruction, input);
      && VaultFrame(s.vault, handled.vault) && VaultOk(net, s.(vault := handled.vault))
      && (handled.reply.Ok? ==> EmittedOk(net, s.(vault := handled.vault), handled.reply.value))
  {
    hide VaultOk, VaultFrame, EmittedOk, HandleCreateTreasuryKey, HandleRegisterPolicy, HandleAuthorizePayment, HeaderFor;
    match instruction.command
    case CreateTreasuryKey(p) => CreateKeyVault(net, s, instruction.header, p, input.key);
    case RegisterPolicy(p) => RegisterPolicyVault(net, s, instruction.header, p);
    case AuthorizePayment(ciphertext) => AuthorizeVault(net, s, instruction.header, ciphertext, input.nodeUp);
    case SignXrplPayment =>
  }

  /** A reply's goodness does not look at the other records of the enclave's state. */
  lemma EmittedElsewhere(net: Net, s: State, s': State, body: ResultBody)
    requires EmittedOk(net, s, body) && s'.system == s.system && s'.vault == s.vault
    requires forall g :: g in s.signings ==> g in s'.signings
    ensures EmittedOk(net, s', body)
  {
    hide TermsOf;
  }

  lemma VaultElsewhere(net: Net, s: State, s': State)
    requires VaultOk(net, s) && s'.system == s.system && s'.vault == s.vault
    ensures VaultOk(net, s')
  {
    hide HasTerms, AddressOk;
  }

  lemma DeliverKeepsInv(net: Net, s: State, e: Happening)
    requires WorldInv(net, s) && World.Possible(net, s, e) && e.Deliver?
    ensures WorldInv(net, Next(net, s, e))
  {
    hide SystemInv, InstructionOk, VaultOk, BoundsOk, RequestsOk, SettlementsOk, SignatureOk, EmittedOk, JobOk, VaultFrame,
         Handle, PoliciesOf;
    var instruction := s.system.book.sent[e.index];
    var handled := Handle(net.crypto, s.vault, instruction, Input(e.key, e.nodeUp, None, None, s.clock));
    var s' := Next(net, s, e);
    HandleKeepsVault(net, s, instruction, Input(e.key, e.nodeUp, None, None, s.clock));
    VaultElsewhere(net, s.(vault := handled.vault), s');
    if handled.reply.Ok? {
      EmittedElsewhere(net, s.(vault := handled.vault), s', handled.reply.value);
    }
    EnclaveMoveKeepsInv(net, s, s');
  }

  lemma BegunJobOk(net: Net, s: State, h: Header)
    requires VaultOk(net, s) && HeaderFor(s.system.book, h) && BeginSign(s.vault, h).Ok?
    requires s.system.book.requests[h.requestId].destinationHash != Zero
    ensures JobOk(net, s, BeginSign(s.vault, h).value)
  {
    hide TermsOf, AddressOk;
  }

  lemma JobElsewhere(net: Net, s: State, s': State, job: Job)
    requires JobOk(net, s, job) && s'.system == s.system && s'.vault == s.vault
    ensures JobOk(net, s', job)
  {
    hide HasTerms, HeaderFor;
  }

  lemma BeginKeepsInv(net: Net, s: State, e: Happening)
    requires WorldInv(net, s) && World.Possible(net, s, e) && e.BeginSigning?
    ensures WorldInv(net, Next(net, s, e))
  {
    hide SystemInv, VaultOk, BoundsOk, RequestsOk, SettlementsOk, SignatureOk, EmittedOk, JobOk, HeaderFor, BeginSign, VaultFrame;
    var h := s.system.book.sent[e.index].header;
    var s' := Next(net, s, e);
    VaultStays(s.vault);
    VaultElsewhere(net, s, s');
    assert InstructionOk(s.system.book, s.system.book.sent[e.index]);
    if BeginSign(s.vault, h).Ok? {
      BegunJobOk(net, s, h);
      JobElsewhere(net, s, s', BeginSign(s.vault, h).value);
    }
    EnclaveMoveKeepsInv(net, s, s');
  }

  lemma VaultStays(v: Vault)
    ensures VaultFrame(v, v)
  {
  }

  lemma SignatureElsewhere(net: Net, s: State, s': State, g: Signature)
    requires SignatureOk(net, s, g) && s'.system == s.system && s'.vault == s.vault && s'.clock == s.clock
    ensures SignatureOk(net, s', g)
  {
    hide TermsOf, PaysFor, BoundedBy;
  }

  lemma FinishKeepsInv(net: Net, s: State, e: Happening)
    requires WorldInv(net, s) && World.Possible(net, s, e) && e.FinishSigning?
    ensures WorldInv(net, Next(net, s, e))
  {
    hide SystemInv, LogOk, VaultOk, BoundsOk, RequestsOk, SettlementsOk, SignatureOk, JobOk, FinishSign, VaultFrame, PoliciesOf;
    var job := s.jobs[e.job];
    var handled := FinishSign(net.crypto, s.vault, job, Input(None, true, e.sequence, e.ledger, s.clock));
    var s' := Next(net, s, e);
    FinishVault(net, s, job, e.sequence, e.ledger);
    VaultElsewhere(net, s.(vault := handled.vault), s');
    if handled.reply.Ok? {
      var g := Signature(handled.reply.value, s.clock, e.ledger.value);
      SignatureElsewhere(net, s.(vault := handled.vault), s', g);
      assert g in s'.signings;
      assert EmittedOk(net, s', handled.reply.value);
    }
    hide EmittedOk;
    EnclaveMoveKeepsInv(net, s, s');
  }

  lemma NextKeepsInv(net: Net, s: State, e: Happening)
    requires WorldInv(net, s)
    ensures WorldInv(net, Next(net, s, e))
  {
    if World.Possible(net, s, e) {
      NextPossible(net, s, e);
    }
  }

  lemma NextPossible(net: Net, s: State, e: Happening)
    requires WorldInv(net, s) && World.Possible(net, s, e)
    ensures WorldInv(net, Next(net, s, e))
  {
    hide WorldInv, Step, DeliverStep, BeginStep, FinishStep;
    match e
    case Tick(seconds) => TickKeepsInv(net, s, seconds);
    case Chain(call) => ChainKeepsInv(net, s, call);
    case Settle(verified, rid, proof) => SettleKeepsInv(net, s, verified, rid, proof);
    case Deliver(_, _, _) => DeliverKeepsInv(net, s, e);
    case BeginSigning(_) => BeginKeepsInv(net, s, e);
    case FinishSigning(_, _, _) => FinishKeepsInv(net, s, e);
  }

  /** The invariant holds at every moment of any history. */
  lemma {:induction false} TraceKeepsInv(net: Net, config: Config, tr: Trace, i: nat)
    requires Wired(net, config) && TraceOf(net, config, tr) && i < |tr.states|
    ensures WorldInv(net, tr.states[i])
  {
    hide WorldInv, Next, Wired;
    if i == 0 {
      var clock :| tr.states[0] == Start(config, clock);
      StartInv(net, config, clock);
    } else {
      TraceKeepsInv(net, config, tr, i - 1);
      NextKeepsInv(net, tr.states[i - 1], tr.happenings[i - 1]);
      assert Follows(net, tr, i - 1);
    }
  }

  lemma ReachableInv(net: Net, config: Config, s: State)
    requires Wired(net, config) && Reachable(net, config, s)
    ensures WorldInv(net, s)
  {
    hide WorldInv, Wired, Follows;
    var tr :| TraceOf(net, config, tr) && Last(tr) == s;
    TraceKeepsInv(net, config, tr, |tr.states| - 1);
  }
}
