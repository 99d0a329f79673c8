/** When the contract and the enclave hold the same policy, and when they do not. */
module PolicyAgreement {
  import opened Wrappers
  import opened Protocol
  import opened Books
  import opened BookInvariant
  import opened BookRuns
  import opened BookTerms
  import opened Settlement
  import opened EnclaveState
  import opened World
  import opened WorldInvariant
  import opened WorldRuns

  // ---- Policies in the log ----

  /** The policy an instruction carries to a treasury. */
  function CarriedPolicy(i: Instruction, tid: nat): Option<Policy> {
    if i.header.treasuryId != tid then None
    else
      match i.command
      case CreateTreasuryKey(p) => Some(p)
      case RegisterPolicy(p) => Some(p)
      case _ => None
  }

  /** The position of the last policy instruction sent for a treasury. */
  function LastSent(log: seq<Instruction>, tid: nat): Option<nat> {
    if log == [] then None
    else if CarriedPolicy(log[|log| - 1], tid).Some? then Some(|log| - 1)
    else LastSent(log[..|log| - 1], tid)
  }

  lemma {:induction false} LastSentIsLast(log: seq<Instruction>, tid: nat)
    ensures match LastSent(log, tid)
            case Some(n) =>
              n < |log| && CarriedPolicy(log[n], tid).Some? && (forall k :: n < k < |log| ==> CarriedPolicy(log[k], tid).None?)
            case None => forall k :: 0 <= k < |log| ==> CarriedPolicy(log[k], tid).None?
  {
    hide CarriedPolicy;
    if log != [] {
      LastSentIsLast(log[..|log| - 1], tid);
    }
  }

  /** An instruction that carries no policy for the treasury changes nothing here. */
  lemma LastSentAppend(log: seq<Instruction>, i: Instruction, tid: nat)
    ensures LastSent(log + [i], tid) == if CarriedPolicy(i, tid).Some? then Some(|log|) else LastSent(log, tid)
  {
    assert (log + [i])[..|log|] == log;
  }

  /** The last policy sent for a treasury, as its owner asked for it, is the live one, or the one
      pending; and the live one was asked for by the owner too. */
  ghost predicate PolicyLogged(b: Book, tid: nat)
    requires tid in b.treasuries
  {
    var t, last := b.treasuries[tid], LastSent(b.sent, tid);
    && last.Some? && last.value < |b.sent| && CarriedPolicy(b.sent[last.value], tid).Some?
    && var p := CarriedPolicy(b.sent[last.value], tid).value;
       && (if t.pendingPolicyCommitment == Zero then t.policy == p else t.pendingPolicyCommitment == PolicyCommitment(p))
       && b.sent[last.value].claimBack == t.owner
       && (exists i :: i in b.sent && AsksFor(i, tid, t.policy, t.owner))
  }

  predicate AsksFor(i: Instruction, tid: nat, p: Policy, owner: Address) {
    CarriedPolicy(i, tid) == Some(p) && i.claimBack == owner
  }

  ghost predicate PoliciesLogged(b: Book) {
    forall tid :: tid in b.treasuries ==> PolicyLogged(b, tid)
  }

  /** What a call adds to the log, as far as one treasury's policy goes. */
  ghost predicate LogStep(b: Book, c: Call, b': Book, tid: nat) {
    if UpdatesFor(c, tid) then
      && |b'.sent| == |b.sent| + 1 && b'.sent == b.sent + [b'.sent[|b.sent|]]
      && CarriedPolicy(b'.sent[|b.sent|], tid) == Some(c.policy)
      && tid in b.treasuries && b'.sent[|b.sent|].claimBack == b.treasuries[tid].owner
    else
      || b'.sent == b.sent
      || (|b'.sent| == |b.sent| + 1 && b'.sent == b.sent + [b'.sent[|b.sent|]] && CarriedPolicy(b'.sent[|b.sent|], tid).None?)
  }

  lemma CallLogs(b: Book, now: nat, c: Call, tid: nat)
    requires Numbered(b) && tid in b.treasuries && Perform(b, now, c).Ok?
    ensures LogStep(b, c, After(b, now, c), tid)
    ensures tid in After(b, now, c).treasuries && After(b, now, c).treasuries[tid].owner == b.treasuries[tid].owner
  {
    hide BoundHere, ValidPolicy, Release;
    if EndingCall(c) {
      EndingCallSends(b, now, c);
      EndingCallOwner(b, now, c, tid);
    }
  }

  lemma EndingCallOwner(b: Book, now: nat, c: Call, tid: nat)
    requires EndingCall(c) && tid in b.treasuries && Perform(b, now, c).Ok?
    ensures tid in After(b, now, c).treasuries && After(b, now, c).treasuries[tid].owner == b.treasuries[tid].owner
  {
    hide After, Perform, BudgetStep, SameIdentity;
    RequestCallMoves(b, now, c);
  }

  lemma CreatedLogs(b: Book, now: nat, c: Call, tid: nat)
    requires tid !in b.treasuries && tid in After(b, now, c).treasuries
    ensures PolicyLogged(After(b, now, c), tid)
  {
    NewTreasuryUnbound(b, now, c, tid);
    var b' := After(b, now, c);
    var i := b'.sent[|b.sent|];
    assert b'.sent == b.sent + [i];
    LastSentAppend(b.sent, i, tid);
    hide ValidPolicy, LastSent;
    assert i in b'.sent && AsksFor(i, tid, b'.treasuries[tid].policy, b'.treasuries[tid].owner);
  }

  lemma LoggedStep(b: Book, c: Call, b': Book, tid: nat)
    requires tid in b.treasuries && PolicyLogged(b, tid) && LogStep(b, c, b', tid) && tid in b'.treasuries
    requires b'.treasuries[tid].owner == b.treasuries[tid].owner
    requires BudgetStep(b, c, tid, b.treasuries[tid], b'.treasuries[tid])
    ensures PolicyLogged(b', tid)
  {
    hide LastSent;
    var t, t' := b.treasuries[tid], b'.treasuries[tid];
    if b'.sent != b.sent {
      LastSentAppend(b.sent, b'.sent[|b.sent|], tid);
    }
    var last := b.sent[LastSent(b.sent, tid).value];
    if ConfirmsFor(c, tid) {
      assert last in b'.sent && AsksFor(last, tid, t'.policy, t'.owner);
    } else {
      var i :| i in b.sent && AsksFor(i, tid, t.policy, t.owner);
      assert i in b'.sent && AsksFor(i, tid, t'.policy, t'.owner);
    }
  }

  lemma CallKeepsPolicies(b: Book, now: nat, c: Call)
    requires Numbered(b) && PoliciesLogged(b)
    ensures PoliciesLogged(After(b, now, c))
  {
    assert Perform(b, now, c).Err? ==> After(b, now, c) == b;
    hide After, Perform, PolicyLogged, LogStep, BudgetStep, Numbered;
    if Perform(b, now, c).Ok? {
      forall tid | tid in After(b, now, c).treasuries ensures PolicyLogged(After(b, now, c), tid) {
        if tid in b.treasuries {
          CallLogs(b, now, c, tid);
          TreasuryStep(b, now, c, tid);
          LoggedStep(b, c, After(b, now, c), tid);
        } else {
          CreatedLogs(b, now, c, tid);
        }
      }
    }
  }

  // ---- Policies in the enclave ----

  /** The enclave's policy for a treasury is the one it was handed last, and it remembers it. */
  ghost predicate Held(s: State, tid: nat)
    requires tid in s.vault.treasuries
  {
    && tid in s.lastDelivered && s.lastDelivered[tid] < |s.system.book.sent|
    && CarriedPolicy(s.system.book.sent[s.lastDelivered[tid]], tid) == Some(s.vault.treasuries[tid].policy)
    && (tid, s.vault.treasuries[tid].policy) in s.adopted
  }

  /** A bind or confirm result tells of a policy the enclave has adopted. */
  ghost predicate ToldTruly(s: State, body: ResultBody) {
    match body
    case Bind(_, _, tid, _, commitment) => exists p :: (tid, p) in s.adopted && commitment == PolicyCommitment(p)
    case Confirm(_, _, tid, p, _) => (tid, p) in s.adopted
    case _ => true
  }

  /** A bound treasury's live policy has been adopted. */
  ghost predicate AdoptedFirst(s: State, tid: nat)
    requires tid in s.system.book.treasuries
  {
    var t := s.system.book.treasuries[tid];
    t.bound ==> (tid, t.policy) in s.adopted
  }

  ghost predicate PolicyInv(s: State) {
    && PoliciesLogged(s.system.book)
    && (forall tid :: tid in s.vault.treasuries ==> Held(s, tid))
    && (forall body :: body in s.emitted ==> ToldTruly(s, body))
    && (forall tid :: tid in s.system.book.treasuries ==> AdoptedFirst(s, tid))
  }

  lemma HeldFrame(s: State, s': State, tid: nat)
    requires tid in s.vault.treasuries && Held(s, tid)
    requires tid in s'.vault.treasuries && s'.vault.treasuries[tid].policy == s.vault.treasuries[tid].policy
    requires s'.lastDelivered == s.lastDelivered
    requires s.system.book.sent <= s'.system.book.sent && s.adopted <= s'.adopted
    ensures Held(s', tid)
  {
  }

  lemma ToldFrame(s: State, s': State, body: ResultBody)
    requires ToldTruly(s, body) && s.adopted <= s'.adopted
    ensures ToldTruly(s', body)
  {
  }

  lemma ChainAdopts(s: State, c: Call, tid: nat)
    requires Inv(s.system.book) && PolicyInv(s) && Authentic(s, c)
    requires tid in After(s.system.book, s.clock, c).treasuries
    ensures AdoptedFirst(s.(system := s.system.(book := After(s.system.book, s.clock, c))), tid)
  {
    hide After, Perform, Numbered, Inv, PoliciesLogged, Held;
    var b, b' := s.system.book, After(s.system.book, s.clock, c);
    InvNumbered(b);
    if Perform(b, s.clock, c).Err? {
      RejectedStays(b, s.clock, c);
    }
    if tid in b.treasuries {
      LiveCommitment(b, tid);
    }
    if tid !in b.treasuries {
      NewTreasuryUnbound(b, s.clock, c, tid);
    } else {
      assert AdoptedFirst(s, tid);
      if Perform(b, s.clock, c).Ok? {
        CallAddress(b, s.clock, c, tid);
        TreasuryStep(b, s.clock, c, tid);
        if (c.CallBind? && c.res.body.Bind? && c.res.body.treasuryId == tid) {
          assert ToldTruly(s, c.res.body);
        } else if ConfirmsFor(c, tid) {
          ConfirmedByEnclave(b, s.clock, c);
          assert ToldTruly(s, c.res.body);
        }
      }
    }
  }

  lemma RejectedStays(b: Book, now: nat, c: Call)
    requires Perform(b, now, c).Err?
    ensures After(b, now, c) == b
  {
  }

  lemma ConfirmedByEnclave(b: Book, now: nat, c: Call)
    requires c.CallConfirmPolicy? && Perform(b, now, c).Ok?
    ensures c.res.signer == b.config.teeAddress
  {
    hide BoundHere;
  }

  lemma LiveCommitment(b: Book, tid: nat)
    requires Inv(b) && tid in b.treasuries
    ensures b.treasuries[tid].policyCommitment == PolicyCommitment(b.treasuries[tid].policy)
  {
    hide Numbered, Conserved, ListOk, RequestOk;
  }

  lemma SentGrows(b: Book, now: nat, c: Call)
    ensures b.sent <= After(b, now, c).sent
  {
    CallSendsOne(b, now, c);
  }

  lemma ChainKeepsPolicies(s: State, c: Call)
    requires Inv(s.system.book) && PolicyInv(s) && Authentic(s, c)
    ensures PolicyInv(s.(system := s.system.(book := After(s.system.book, s.clock, c))))
  {
    hide Inv, After, PoliciesLogged, Held, ToldTruly, AdoptedFirst, Numbered;
    var b' := After(s.system.book, s.clock, c);
    var s' := s.(system := s.system.(book := b'));
    InvNumbered(s.system.book);
    CallKeepsPolicies(s.system.book, s.clock, c);
    SentGrows(s.system.book, s.clock, c);
    forall tid | tid in s'.vault.treasuries ensures Held(s', tid) {
      HeldInChain(s, s', tid);
    }
    forall body | body in s'.emitted ensures ToldTruly(s', body) {
      ToldFrame(s, s', body);
    }
    forall tid | tid in b'.treasuries ensures AdoptedFirst(s', tid) {
      ChainAdopts(s, c, tid);
    }
  }

  lemma HeldInChain(s: State, s': State, tid: nat)
    requires tid in s.vault.treasuries && Held(s, tid) && s'.vault == s.vault && s'.lastDelivered == s.lastDelivered
    requires s.system.book.sent <= s'.system.book.sent && s'.adopted == s.adopted
    ensures Held(s', tid)
  {
  }

  lemma SettleKeepsPolicies(net: Net, s: State, a: Action)
    requires Inv(s.system.book) && PolicyInv(s) && a.Finalize?
    ensures PolicyInv(s.(system := Step(net.site, s.system, a)))
  {
    hide Inv, Held, ToldTruly, FinalizePayment, Numbered;
    var s' := s.(system := Step(net.site, s.system, a));
    InvNumbered(s.system.book);
    if Settles(net.site, s.system, a) {
      FinalizeEffect(net.site, s.system, a);
    } else {
      UnsettledStep(net.site, s.system, a);
    }
    SameTreasuries(s, s');
  }

  /** Nothing about policies moved. */
  lemma SameTreasuries(s: State, s': State)
    requires PolicyInv(s) && s'.system.book.treasuries == s.system.book.treasuries && s'.system.book.sent == s.system.book.sent
    requires s'.vault.treasuries == s.vault.treasuries && s'.lastDelivered == s.lastDelivered
    requires s.adopted <= s'.adopted && s'.emitted == s.emitted
    ensures PolicyInv(s')
  {
    hide LastSent, AsksFor, CarriedPolicy;
    forall tid | tid in s'.system.book.treasuries ensures PolicyLogged(s'.system.book, tid) {
      assert PolicyLogged(s.system.book, tid);
    }
    forall tid | tid in s'.vault.treasuries ensures Held(s', tid) {
      assert Held(s, tid);
    }
    forall body | body in s'.emitted ensures ToldTruly(s', body) {
      ToldFrame(s, s', body);
    }
    forall tid | tid in s'.system.book.treasuries ensures AdoptedFirst(s', tid) {
      assert AdoptedFirst(s, tid);
    }
  }

  // ---- Deliveries ----

  /** What one handler does to the policies. */
  ghost predicate PolicyMove(v: Vault, instruction: Instruction, handled: Handled) {
    var tid := instruction.header.treasuryId;
    if handled.reply.Ok? && (instruction.command.CreateTreasuryKey? || instruction.command.RegisterPolicy?) then
      && tid in handled.vault.treasuries
      && handled.vault.treasuries == v.treasuries[tid := handled.vault.treasuries[tid]]
      && CarriedPolicy(instruction, tid) == Some(handled.vault.treasuries[tid].policy)
      && (handled.reply.value.Bind? || handled.reply.value.Confirm?) && handled.reply.value.treasuryId == tid
      && (handled.reply.value.Bind? ==>
            handled.reply.value.policyCommitment == PolicyCommitment(handled.vault.treasuries[tid].policy))
      && (handled.reply.value.Confirm? ==> handled.reply.value.policy == handled.vault.treasuries[tid].policy)
    else
      && handled.vault.treasuries == v.treasuries
      && (handled.reply.Ok? ==> !handled.reply.value.Bind? && !handled.reply.value.Confirm?)
  }

  lemma HandleMoves(net: Net, v: Vault, instruction: Instruction, input: Input)
    ensures PolicyMove(v, instruction, Handle(net.crypto, v, instruction, input))
  {
    hide TermsOf, SignJob, RefusePayment;
  }

  lemma FinishMoves(net: Net, v: Vault, job: Job, input: Input)
    ensures FinishSign(net.crypto, v, job, input).vault.treasuries == v.treasuries
    ensures FinishSign(net.crypto, v, job, input).reply.Ok? ==> FinishSign(net.crypto, v, job, input).reply.value.SignedPayment?
  {
    hide SignJob;
  }

  lemma EmitKeepsPolicies(s: State, s': State, instruction: Instruction, handled: Handled, i: nat)
    requires PolicyInv(s) && i < |s.system.book.sent| && instruction == s.system.book.sent[i]
    requires PolicyMove(s.vault, instruction, handled)
    requires s'.system == s.system && s'.vault == handled.vault && s'.adopted == s.adopted + PoliciesOf(handled.vault)
    requires s'.emitted == if handled.reply.Ok? then s.emitted + {handled.reply.value} else s.emitted
    requires s'.lastDelivered ==
      if handled.reply.Ok? && (instruction.command.CreateTreasuryKey? || instruction.command.RegisterPolicy?)
      then s.lastDelivered[instruction.header.treasuryId := i] else s.lastDelivered
    ensures PolicyInv(s')
  {
    forall tid | tid in s'.vault.treasuries ensures Held(s', tid) {
      HeldAfter(s, s', instruction, handled, i, tid);
    }
    hide PoliciesLogged, Held, CarriedPolicy;
    forall body | body in s'.emitted ensures ToldTruly(s', body) {
      if body in s.emitted {
        ToldFrame(s, s', body);
      } else {
        ToldAfter(s', instruction, handled);
      }
    }
    forall tid | tid in s'.system.book.treasuries ensures AdoptedFirst(s', tid) {
      assert AdoptedFirst(s, tid);
    }
  }

  lemma ToldAfter(s': State, instruction: Instruction, handled: Handled)
    requires handled.reply.Ok? && PoliciesOf(handled.vault) <= s'.adopted
    requires exists v :: PolicyMove(v, instruction, handled)
    ensures ToldTruly(s', handled.reply.value)
  {
    var body := handled.reply.value;
    if body.Bind? || body.Confirm? {
      var p := handled.vault.treasuries[instruction.header.treasuryId].policy;
      assert (instruction.header.treasuryId, p) in PoliciesOf(handled.vault);
    }
  }

  lemma HeldAfter(s: State, s': State, instruction: Instruction, handled: Handled, i: nat, tid: nat)
    requires PolicyInv(s) && i < |s.system.book.sent| && instruction == s.system.book.sent[i]
    requires PolicyMove(s.vault, instruction, handled)
    requires s'.system == s.system && s'.vault == handled.vault && s'.adopted == s.adopted + PoliciesOf(handled.vault)
    requires s'.lastDelivered ==
      if handled.reply.Ok? && (instruction.command.CreateTreasuryKey? || instruction.command.RegisterPolicy?)
      then s.lastDelivered[instruction.header.treasuryId := i] else s.lastDelivered
    requires tid in s'.vault.treasuries
    ensures Held(s', tid)
  {
    hide PoliciesLogged, AdoptedFirst, ToldTruly, CarriedPolicy;
    assert (tid, s'.vault.treasuries[tid].policy) in PoliciesOf(handled.vault);
    if tid in s.vault.treasuries {
      assert Held(s, tid);
    }
  }

  lemma DeliverKeepsPolicies(net: Net, s: State, e: Happening)
    requires PolicyInv(s) && World.Possible(net, s, e) && e.Deliver?
    ensures PolicyInv(Next(net, s, e))
  {
    hide PolicyInv, Handle, PolicyMove, PoliciesOf;
    var instruction := s.system.book.sent[e.index];
    var input := Input(e.key, e.nodeUp, None, None, s.clock);
    HandleMoves(net, s.vault, instruction, input);
    EmitKeepsPolicies(s, Next(net, s, e), instruction, Handle(net.crypto, s.vault, instruction, input), e.index);
  }

  lemma FinishKeepsPolicies(net: Net, s: State, e: Happening)
    requires PolicyInv(s) && World.Possible(net, s, e) && e.FinishSigning?
    ensures PolicyInv(Next(net, s, e))
  {
    hide FinishSign, PolicyLogged, Held, AdoptedFirst, PoliciesOf;
    FinishMoves(net, s.vault, s.jobs[e.job], Input(None, true, e.sequence, e.ledger, s.clock));
    var s' := Next(net, s, e);
    SameTreasuries(s, s'.(emitted := s.emitted));
    forall tid | tid in s'.vault.treasuries ensures Held(s', tid) {
      HeldFrame(s, s', tid);
    }
    forall tid | tid in s'.system.book.treasuries ensures AdoptedFirst(s', tid) {
      AdoptedFrame(s, s', tid);
    }
  }

  lemma AdoptedFrame(s: State, s': State, tid: nat)
    requires tid in s.system.book.treasuries && AdoptedFirst(s, tid) && s'.system == s.system && s.adopted <= s'.adopted
    ensures AdoptedFirst(s', tid)
  {
  }

  lemma NextKeepsPolicies(net: Net, s: State, e: Happening)
    requires WorldInv(net, s) && PolicyInv(s)
    ensures PolicyInv(Next(net, s, e))
  {
    hide PolicyInv, WorldInv, DeliverStep, FinishStep, FinalizePayment, After, Inv, Authentic;
    BookInv(net, s);
    if World.Possible(net, s, e) {
      match e
      case Chain(call) => ChainKeepsPolicies(s, call);
      case Settle(verified, rid, proof) => SettleKeepsPolicies(net, s, Finalize(verified, rid, proof));
      case Deliver(_, _, _) => DeliverKeepsPolicies(net, s, e);
      case FinishSigning(_, _, _) => FinishKeepsPolicies(net, s, e);
      case Tick(_) => SameTreasuries(s, Next(net, s, e));
      case BeginSigning(_) => SameTreasuries(s, Next(net, s, e));
    }
  }

  lemma BookInv(net: Net, s: State)
    requires WorldInv(net, s)
    ensures Inv(s.system.book)
  {
    hide Inv, Bijection, LogOk, VaultOk, JobsOk, SignaturesOk, EmissionsOk, BoundsOk, RequestsOk, SettlementsOk;
  }

  lemma {:induction false} TraceKeepsPolicies(net: Net, config: Config, tr: Trace, i: nat)
    requires Wired(net, config) && TraceOf(net, config, tr) && i < |tr.states|
    ensures PolicyInv(tr.states[i])
  {
    hide WorldInv, Next, Wired, PolicyLogged, Held, ToldTruly, AdoptedFirst;
    if i > 0 {
      TraceKeepsPolicies(net, config, tr, i - 1);
      TraceKeepsInv(net, config, tr, i - 1);
      NextKeepsPolicies(net, tr.states[i - 1], tr.happenings[i - 1]);
      assert Follows(net, tr, i - 1);
    }
  }
}
