/** Policy agreement over whole histories. */
module PolicyRuns {
  import opened Wrappers
  import opened Protocol
  import opened Books
  import opened Settlement
  import opened EnclaveState
  import opened World
  import opened PolicyAgreement

  // ---- Every live policy was asked for, and held by the enclave first ----

  ghost predicate HeldAt(s: State, tid: nat, p: Policy) {
    tid in s.vault.treasuries && s.vault.treasuries[tid].policy == p
  }

  lemma AdoptedStep(net: Net, s: State, e: Happening, tid: nat, p: Policy)
    requires (tid, p) in Next(net, s, e).adopted
    ensures (tid, p) in s.adopted || HeldAt(Next(net, s, e), tid, p)
  {
    hide Step, Handle, FinishSign, World.Possible, BeginSign;
  }

  lemma {:induction false} AdoptedWasHeld(net: Net, config: Config, tr: Trace, i: nat, tid: nat, p: Policy) returns (j: nat)
    requires TraceOf(net, config, tr) && i < |tr.states| && (tid, p) in tr.states[i].adopted
    ensures j <= i && HeldAt(tr.states[j], tid, p)
  {
    hide Next, HeldAt;
    if i == 0 {
      assert false;
    } else {
      assert Follows(net, tr, i - 1);
      AdoptedStep(net, tr.states[i - 1], tr.happenings[i - 1], tid, p);
      if (tid, p) in tr.states[i - 1].adopted {
        j := AdoptedWasHeld(net, config, tr, i - 1, tid, p);
      } else {
        j := i;
      }
    }
  }

  /** Every policy live on chain, at any moment of a history, was asked for by the treasury's owner;
      once the treasury is bound, the enclave has held it, then or before. */
  lemma LivePolicyRequestedAndAdopted(net: Net, config: Config, tr: Trace, i: nat, tid: nat) returns (j: nat)
    requires Wired(net, config) && TraceOf(net, config, tr) && i < |tr.states|
    requires tid in tr.states[i].system.book.treasuries
    ensures
      var b := tr.states[i].system.book;
      exists sent :: sent in b.sent && AsksFor(sent, tid, b.treasuries[tid].policy, b.treasuries[tid].owner)
    ensures j <= i
    ensures
      var t := tr.states[i].system.book.treasuries[tid];
      t.bound ==> HeldAt(tr.states[j], tid, t.policy)
  {
    hide TraceOf, Held, ToldTruly, LastSent, AsksFor, HeldAt;
    TraceKeepsPolicies(net, config, tr, i);
    var s := tr.states[i];
    assert PolicyLogged(s.system.book, tid);
    assert AdoptedFirst(s, tid);
    j := 0;
    if s.system.book.treasuries[tid].bound {
      j := AdoptedWasHeld(net, config, tr, i, tid, s.system.book.treasuries[tid].policy);
    }
  }

  // ---- Agreement ----

  /** The policy the owner asked for last. */
  function LastRequested(b: Book, tid: nat): Option<Policy> {
    var n := LastSent(b.sent, tid);
    if n.Some? && n.value < |b.sent| then CarriedPolicy(b.sent[n.value], tid) else None
  }

  /** The policy instruction the enclave handled last. */
  function LastHandled(s: State, tid: nat): Option<Policy> {
    if tid in s.lastDelivered && s.lastDelivered[tid] < |s.system.book.sent|
    then CarriedPolicy(s.system.book.sent[s.lastDelivered[tid]], tid) else None
  }

  /** Both sides know the treasury and no update is pending on chain. */
  predicate Quiet(s: State, tid: nat) {
    && tid in s.system.book.treasuries && s.system.book.treasuries[tid].pendingPolicyCommitment == Zero
    && tid in s.vault.treasuries
  }

  /** With nothing pending the contract holds the policy asked for last, whatever the network did. The
      enclave has handled that instruction or an earlier one last, and agrees exactly when what it
      handled last carried the same policy: always when it is that very instruction. */
  lemma AgreementExactly(net: Net, config: Config, tr: Trace, i: nat, tid: nat)
    requires Wired(net, config) && TraceOf(net, config, tr) && i < |tr.states| && Quiet(tr.states[i], tid)
    ensures
      var s := tr.states[i];
      var live, held := s.system.book.treasuries[tid].policy, s.vault.treasuries[tid].policy;
      && LastRequested(s.system.book, tid) == Some(live)
      && (held == live <==> LastHandled(s, tid) == LastRequested(s.system.book, tid))
      && LastSent(s.system.book.sent, tid).Some? && tid in s.lastDelivered
      && s.lastDelivered[tid] <= LastSent(s.system.book.sent, tid).value
      && (s.lastDelivered[tid] == LastSent(s.system.book.sent, tid).value ==> held == live)
  {
    hide TraceOf, ToldTruly, AdoptedFirst, LastSent, CarriedPolicy;
    TraceKeepsPolicies(net, config, tr, i);
    var s := tr.states[i];
    assert PolicyLogged(s.system.book, tid);
    assert Held(s, tid);
    LastSentIsLast(s.system.book.sent, tid);
  }

  /** Policy instructions for a treasury are handled in the order they were sent. */
  ghost predicate InOrder(tr: Trace, tid: nat) {
    forall i: nat {:trigger NotBack(tr, i, tid)} :: NotBack(tr, i, tid)
  }

  ghost predicate NotBack(tr: Trace, i: nat, tid: nat) {
    i + 1 < |tr.states| && tid in tr.states[i].lastDelivered ==>
      tid in tr.states[i + 1].lastDelivered && tr.states[i].lastDelivered[tid] <= tr.states[i + 1].lastDelivered[tid]
  }

  lemma {:induction false} OrderHolds(tr: Trace, tid: nat, i: nat, j: nat)
    requires InOrder(tr, tid) && i <= j < |tr.states| && tid in tr.states[i].lastDelivered
    ensures tid in tr.states[j].lastDelivered && tr.states[i].lastDelivered[tid] <= tr.states[j].lastDelivered[tid]
  {
    if i < j {
      OrderHolds(tr, tid, i, j - 1);
      assert NotBack(tr, j - 1, tid);
    }
  }

  /** With instructions handled in order, the last one sent among them, and nothing pending, contract
      and enclave hold the same policy: the one the owner asked for last. */
  lemma InOrderAgreement(net: Net, config: Config, tr: Trace, k: nat, i: nat, tid: nat)
    requires Wired(net, config) && TraceOf(net, config, tr) && InOrder(tr, tid)
    requires k <= i < |tr.states| && Quiet(tr.states[i], tid)
    requires tid in tr.states[k].lastDelivered
    requires LastSent(tr.states[i].system.book.sent, tid) == Some(tr.states[k].lastDelivered[tid])
    ensures
      var s := tr.states[i];
      && s.vault.treasuries[tid].policy == s.system.book.treasuries[tid].policy
      && LastRequested(s.system.book, tid) == Some(s.vault.treasuries[tid].policy)
  {
    hide TraceOf, ToldTruly, AdoptedFirst, LastSent, CarriedPolicy, InOrder, PolicyLogged;
    var s := tr.states[i];
    OrderHolds(tr, tid, k, i);
    TraceKeepsPolicies(net, config, tr, i);
    assert Held(s, tid);
    LastSentIsLast(s.system.book.sent, tid);
    AgreementExactly(net, config, tr, i, tid);
  }
}
