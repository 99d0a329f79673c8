/** Histories the protocol allows that break what its documentation promises. Each starts from any
    state with an active treasury; Example.dfy gives such a state in full. */
module Scenarios {
  import opened Wrappers
  import opened Protocol
  import opened Books
  import opened World
  import opened Signings
  import opened Progress
  import opened Completion
  import opened PolicyRuns

  // ---- A cap below what is reserved ----

  /** The controller with the payment asked for, then a policy update pending. */
  function UpdatedAsked(s: State, p: Plan, policy: Policy): Book
    requires InBounds(s, p.tid)
  {
    UpdatedBook(AskedBook(s, p), p.tid, policy)
  }

  lemma UpdateAfterAsk(net: Net, s: State, p: Plan, policy: Policy)
    requires Ready(net, s, p) && Offered(s.system.book, p.tid, policy)
    ensures p.tid in AskedBook(s, p).treasuries && Offered(AskedBook(s, p), p.tid, policy)
    ensures
      var s1 := SetBook(s, UpdatedAsked(s, p, policy));
      Running(s1.system.book) && Allowed(net, s1, p) && Waits(s1, p, AskHeader(s, p))
  {
    hide ClassicAddress.DecodeAddress;
  }

  /** What is reserved and what is pending once the update has crossed the authorization. */
  lemma CrossedBook(net: Net, s: State, p: Plan, policy: Policy)
    requires Ready(net, s, p) && Offered(s.system.book, p.tid, policy)
    ensures
      var s1 := SetBook(s, UpdatedAsked(s, p, policy));
      && p.rid in s1.system.book.requests && s1.system.book.requests[p.rid].treasuryId == p.tid && p.tid in s1.system.book.treasuries
      && var b := AuthorizedBook(s1, p);
         && Running(b) && p.tid in b.treasuries && b.treasuries[p.tid].pendingPolicyCommitment == PolicyCommitment(policy)
         && b.treasuries[p.tid].reservedDrops == s.system.book.treasuries[p.tid].reservedDrops + p.terms.amountDrops
         && Registers(b, |s.system.book.sent| + 1, p.tid, policy)
  {
    hide Allowed;
  }

  /** The update crosses the authorization, which is accepted under the wider policy. */
  lemma UpdateCrosses(net: Net, config: Config, tr: Trace, p: Plan, policy: Policy) returns (tr': Trace)
    requires TraceOf(net, config, tr) && Ready(net, Last(tr), p) && Offered(Last(tr).system.book, p.tid, policy)
    ensures TraceOf(net, config, tr') && Continues(tr, tr')
    ensures p.tid in Last(tr').vault.treasuries
    ensures
      var s, b := Last(tr), Last(tr').system.book;
      && Running(b) && p.tid in b.treasuries && b.treasuries[p.tid].pendingPolicyCommitment == PolicyCommitment(policy)
      && b.treasuries[p.tid].reservedDrops == s.system.book.treasuries[p.tid].reservedDrops + p.terms.amountDrops
      && Registers(b, |s.system.book.sent| + 1, p.tid, policy)
  {
    hide Next, Follows, GrantsNow, SignsNow, GrantTotal, SigningTotal, Active, Allowed, Waits, Offered, AskedBook, UpdatedBook,
         AuthorizedBook, Registers, Running, InBounds, World.Possible, Perform;
    var s, h := Last(tr), AskHeader(Last(tr), p);
    UpdateAfterAsk(net, s, p, policy);
    CrossedBook(net, s, p, policy);
    TreasuryKnown(net, s, p);
    var tr1 := AsksAndGrants(net, config, tr, p);
    var s1 := Last(tr1);
    Updates(net, s1, p.tid, policy);
    var tr2 := Step(net, config, tr1, Chain(UpdateCall(s1.system.book, p.tid, policy)), p.rid);
    var s2 := Last(tr2);
    AllowedElsewhere(net, SetBook(s, UpdatedAsked(s, p, policy)), s2, p);
    WaitsElsewhere(SetBook(s, UpdatedAsked(s, p, policy)), s2, p, h);
    SubmitsGrant(net, s2, p, h);
    AuthorizedElsewhere(SetBook(s, UpdatedAsked(s, p, policy)), s2, p);
    tr' := Step(net, config, tr2, Chain(GrantCall(s2, h, p)), p.rid);
  }

  /** A narrower policy is asked for while an authorization is under way: the authorization is accepted
      under the wider policy, then the narrower one is confirmed, and the live cap is below what is
      reserved. */
  lemma LiveCapCanBreak(net: Net, config: Config, tr: Trace, p: Plan, narrow: Policy) returns (tr': Trace)
    requires TraceOf(net, config, tr) && Ready(net, Last(tr), p) && Offered(Last(tr).system.book, p.tid, narrow)
    requires narrow.maxTotalDrops < Last(tr).system.book.treasuries[p.tid].reservedDrops + p.terms.amountDrops
    ensures TraceOf(net, config, tr') && Continues(tr, tr') && p.tid in Last(tr').system.book.treasuries
    ensures
      var t := Last(tr').system.book.treasuries[p.tid];
      && t.reservedDrops == Last(tr).system.book.treasuries[p.tid].reservedDrops + p.terms.amountDrops
      && t.policy.maxTotalDrops == narrow.maxTotalDrops < t.reservedDrops
    ensures AvailableDrops(Last(tr').system.book, p.tid) == Err(Panic)
  {
    hide Next, Follows, GrantsNow, SignsNow, GrantTotal, SigningTotal, Ready, Offered, Registers, Running, World.Possible, Perform;
    var tr1 := UpdateCrosses(net, config, tr, p, narrow);
    var i := |Last(tr).system.book.sent| + 1;
    RegistersPolicy(net, Last(tr1), i, p.tid, narrow);
    var tr2 := Step(net, config, tr1, Deliver(i, None, true), p.rid);
    Confirms(net, Last(tr2), p.tid, narrow);
    tr' := Step(net, config, tr2, Chain(ConfirmCall(Last(tr2).system.book, p.tid, narrow)), p.rid);
  }

  lemma TreasuryKnown(net: Net, s: State, p: Plan)
    requires Ready(net, s, p)
    ensures p.tid in s.vault.treasuries
  {
    hide Allowed;
  }

  // ---- A confirmation used twice ----

  /** Ask for a policy and confirm it; ask for the same policy again, and the same confirmation is
      accepted again. */
  lemma ConfirmationCanRepeat(net: Net, config: Config, tr: Trace, tid: nat, policy: Policy) returns (tr': Trace)
    requires TraceOf(net, config, tr) && Active(Last(tr), tid) && Offered(Last(tr).system.book, tid, policy)
    ensures TraceOf(net, config, tr') && Continues(tr, tr')
    ensures
      var n := |tr.happenings|;
      && |tr'.happenings| == n + 5
      && tr'.happenings[n + 2] == tr'.happenings[n + 4] == Chain(ConfirmCall(Last(tr).system.book, tid, policy))
      && Perform(tr'.states[n + 2].system.book, tr'.states[n + 2].clock, tr'.happenings[n + 2].call).Ok?
      && Perform(tr'.states[n + 4].system.book, tr'.states[n + 4].clock, tr'.happenings[n + 4].call).Ok?
  {
    hide Next, Follows, GrantsNow, SignsNow, GrantTotal, SigningTotal, World.Possible, Perform, RegisteredVault;
    var b := Last(tr).system.book;
    Updates(net, Last(tr), tid, policy);
    var tr1 := Appends(net, config, tr, Chain(UpdateCall(b, tid, policy)));
    RegistersPolicy(net, Last(tr1), |b.sent|, tid, policy);
    var tr2 := Appends(net, config, tr1, Deliver(|b.sent|, None, true));
    Confirms(net, Last(tr2), tid, policy);
    var tr3 := Appends(net, config, tr2, Chain(ConfirmCall(b, tid, policy)));
    Updates(net, Last(tr3), tid, policy);
    var tr4 := Appends(net, config, tr3, Chain(UpdateCall(Last(tr3).system.book, tid, policy)));
    EmittedStays(net, Last(tr2), Chain(ConfirmCall(b, tid, policy)));
    EmittedStays(net, Last(tr3), Chain(UpdateCall(Last(tr3).system.book, tid, policy)));
    Confirms(net, Last(tr4), tid, policy);
    tr' := Appends(net, config, tr4, Chain(ConfirmCall(b, tid, policy)));
  }

  /** One more happening, seen by position. */
  lemma Appends(net: Net, config: Config, tr: Trace, e: Happening) returns (tr': Trace)
    requires TraceOf(net, config, tr)
    ensures TraceOf(net, config, tr') && Continues(tr, tr') && Last(tr') == Next(net, Last(tr), e)
    ensures tr'.happenings == tr.happenings + [e] && tr'.states == tr.states + [Last(tr')]
  {
    hide Next, Follows;
    tr' := Grow(net, tr, e);
    GrowsTrace(net, config, tr, e);
  }

  lemma EmittedStays(net: Net, s: State, e: Happening)
    requires e.Chain?
    ensures Next(net, s, e).emitted == s.emitted
  {
    hide World.Possible;
  }

  // ---- Two policies, delivered out of order ----

  /** The controller with both updates asked for. */
  function TwiceUpdated(b: Book, tid: nat, second: Policy, third: Policy): Book
    requires tid in b.treasuries
  {
    UpdatedBook(UpdatedBook(b, tid, second), tid, third)
  }

  lemma UpdatesTwice(net: Net, config: Config, tr: Trace, tid: nat, second: Policy, third: Policy) returns (tr': Trace)
    requires TraceOf(net, config, tr) && tid in Last(tr).system.book.treasuries
    requires Offered(Last(tr).system.book, tid, second) && Offered(Last(tr).system.book, tid, third)
    ensures TraceOf(net, config, tr') && Continues(tr, tr')
    ensures Last(tr') == SetBook(Last(tr), TwiceUpdated(Last(tr).system.book, tid, second, third))
    ensures tr'.happenings == tr.happenings + [Chain(UpdateCall(Last(tr).system.book, tid, second)),
                                               Chain(UpdateCall(Last(tr).system.book, tid, third))]
  {
    hide Next, Follows, World.Possible, Perform;
    var b := Last(tr).system.book;
    Updates(net, Last(tr), tid, second);
    var tr1 := Appends(net, config, tr, Chain(UpdateCall(b, tid, second)));
    Updates(net, Last(tr1), tid, third);
    tr' := Appends(net, config, tr1, Chain(UpdateCall(b, tid, third)));
  }

  lemma TwiceUpdatedHas(b: Book, tid: nat, second: Policy, third: Policy)
    requires tid in b.treasuries && Running(b)
    ensures
      var b', n := TwiceUpdated(b, tid, second, third), |b.sent|;
      && Running(b') && b'.config == b.config && tid in b'.treasuries && |b'.sent| == n + 2
      && Registers(b', n, tid, second) && Registers(b', n + 1, tid, third)
      && b'.treasuries[tid].pendingPolicyCommitment == PolicyCommitment(third)
  {
  }

  /** Two updates, the later one delivered and confirmed first, the earlier one delivered afterwards:
      both instructions are handled, nothing is pending, and the two sides hold different policies. */
  lemma ReorderingDisagrees(net: Net, config: Config, tr: Trace, tid: nat, second: Policy, third: Policy) returns (tr': Trace)
    requires TraceOf(net, config, tr) && Active(Last(tr), tid) && second != third
    requires Offered(Last(tr).system.book, tid, second) && Offered(Last(tr).system.book, tid, third)
    ensures TraceOf(net, config, tr') && Continues(tr, tr') && Quiet(Last(tr'), tid)
    ensures Last(tr').system.book.treasuries[tid].policy == third && Last(tr').vault.treasuries[tid].policy == second
    ensures
      var n := |Last(tr).system.book.sent|;
      && |Last(tr').system.book.sent| == n + 2
      && tr'.happenings == tr.happenings + [
           Chain(UpdateCall(Last(tr).system.book, tid, second)), Chain(UpdateCall(Last(tr).system.book, tid, third)),
           Deliver(n + 1, None, true), Chain(ConfirmCall(Last(tr).system.book, tid, third)), Deliver(n, None, true)]
  {
    hide Next, Follows, World.Possible, Perform, Offered, TwiceUpdated, Registers;
    var b, n := Last(tr).system.book, |Last(tr).system.book.sent|;
    TwiceUpdatedHas(b, tid, second, third);
    var tr2 := UpdatesTwice(net, config, tr, tid, second, third);
    RegistersPolicy(net, Last(tr2), n + 1, tid, third);
    var tr3 := Appends(net, config, tr2, Deliver(n + 1, None, true));
    Confirms(net, Last(tr3), tid, third);
    var tr4 := Appends(net, config, tr3, Chain(ConfirmCall(b, tid, third)));
    StillRegisters(Last(tr3).system.book, n, tid, second, third);
    RegistersPolicy(net, Last(tr4), n, tid, second);
    tr' := Appends(net, config, tr4, Deliver(n, None, true));
  }

  lemma StillRegisters(b: Book, i: nat, tid: nat, policy: Policy, confirmed: Policy)
    requires tid in b.treasuries && Registers(b, i, tid, policy)
    ensures Registers(ConfirmedBook(b, tid, confirmed), i, tid, policy)
  {
  }

  // ---- One authorization, two signatures ----

  lemma AsksSignatureElsewhere(s: State, s': State, i: nat, rid: nat)
    requires AsksSignature(s, i, rid) && s'.system == s.system
    ensures AsksSignature(s', i, rid)
  {
  }

  lemma SignableAuth(net: Net, s: State, i: nat, rid: nat)
    requires Signable(net, s, rid) && AsksSignature(s, i, rid)
    ensures rid in s.vault.authorizations && s.vault.authorizations[rid].treasuryId in s.vault.treasuries
    ensures i < |s.system.book.sent| && CanSign(net, JobFor(s, i, rid).auth) && JobFor(s, i, rid).header.requestId == rid
  {
    hide CanSign, Running;
  }

  lemma FinishedJobs(s: State, s': State, j: nat, body: ResultBody, ledger: Bytes.uint32)
    requires j < |s.jobs| && Finished(s, s', j, body, ledger)
    ensures s'.jobs == s.jobs[..j] + s.jobs[j + 1..]
  {
  }

  /** Two handlers begin on one authorization. */
  lemma BeginsTwice(net: Net, config: Config, tr: Trace, i: nat, rid: nat) returns (tr': Trace, job: EnclaveState.Job)
    requires TraceOf(net, config, tr) && Signable(net, Last(tr), rid) && AsksSignature(Last(tr), i, rid)
    ensures TraceOf(net, config, tr') && Continues(tr, tr')
    ensures Last(tr').jobs == Last(tr).jobs + [job, job] && CanSign(net, job.auth) && job.header.requestId == rid
    ensures GrantTotal(net, tr', rid) == GrantTotal(net, tr, rid) && SigningTotal(net, tr', rid) == SigningTotal(net, tr, rid)
  {
    hide Follows, GrantTotal, SigningTotal, CanSign, AsksSignature, Signable, Running;
    var s := Last(tr);
    SignableAuth(net, s, i, rid);
    job := JobFor(s, i, rid);
    var tr1 := BeginsOnce(net, config, tr, i, rid);
    SignableElsewhere(net, s, Last(tr1), rid);
    AsksSignatureElsewhere(s, Last(tr1), i, rid);
    tr' := BeginsOnce(net, config, tr1, i, rid);
  }

  /** And both finish. */
  lemma FinishesTwice(
      net: Net, config: Config, tr: Trace, j: nat, job: EnclaveState.Job, x: Progress.Reading, y: Progress.Reading, rid: nat)
    returns (tr': Trace)
    requires TraceOf(net, config, tr) && |Last(tr).jobs| == j + 2 && Last(tr).jobs[j] == job && Last(tr).jobs[j + 1] == job
    requires CanSign(net, job.auth) && job.header.requestId == rid && Sane(x) && Sane(y)
    ensures TraceOf(net, config, tr') && Continues(tr, tr')
    ensures GrantTotal(net, tr', rid) == GrantTotal(net, tr, rid) && SigningTotal(net, tr', rid) == SigningTotal(net, tr, rid) + 2
  {
    hide Follows, GrantTotal, SigningTotal, CanSign, Sane, SignedUnder, Finished;
    var tr1, first := FinishesOnce(net, config, tr, j, x, rid);
    FinishedJobs(Last(tr), Last(tr1), j, SignedBody(job.header, first), x.ledger);
    var second;
    tr', second := FinishesOnce(net, config, tr1, j, y, rid);
  }

  /** Two signing instructions handled at once: both begin while the one authorization is in hand, and
      both finish. */
  lemma OneGrantTwoSignatures(net: Net, config: Config, tr: Trace, p: Plan, x: Progress.Reading, y: Progress.Reading)
    returns (tr': Trace)
    requires TraceOf(net, config, tr) && Ready(net, Last(tr), p) && Sane(x) && Sane(y)
    ensures TraceOf(net, config, tr') && Continues(tr, tr')
    ensures GrantTotal(net, tr', p.rid) == GrantTotal(net, tr, p.rid) + 1
    ensures SigningTotal(net, tr', p.rid) == SigningTotal(net, tr, p.rid) + 2
  {
    hide Follows, GrantTotal, SigningTotal, CanSign, Sane, AsksSignature, Signable, Ready, SentBook, ReservedBook;
    ReadyInBounds(net, Last(tr), p);
    var tr1 := Authorizes(net, config, tr, p);
    SignableExists(net, Last(tr1), p.rid);
    var tr2 := AsksSignatureOnce(net, config, tr1, p.rid);
    var tr3, job := BeginsTwice(net, config, tr2, |Last(tr1).system.book.sent|, p.rid);
    tr' := FinishesTwice(net, config, tr3, |Last(tr2).jobs|, job, x, y, p.rid);
  }
}
