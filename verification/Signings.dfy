/** How many payments the enclave signs for each authorization it grants, when its handlers
    interleave. The signing handler reads the authorization under one lock and deletes it under
    another, so a signing can finish whose authorization is no longer in hand. */
module Signings {
  import opened Wrappers
  import opened Books
  import opened EnclaveState
  import opened World

  predicate InHand(s: State, rid: nat) {
    rid in s.vault.authorizations
  }

  /** The enclave grants a request an authorization. */
  ghost predicate GrantsNow(net: Net, s: State, e: Happening, rid: nat) {
    && World.Possible(net, s, e) && e.Deliver?
    && var instruction := s.system.book.sent[e.index];
       && instruction.command.AuthorizePayment? && instruction.header.requestId == rid
       && Handle(net.crypto, s.vault, instruction, Input(e.key, e.nodeUp, None, None, s.clock)).reply.Ok?
  }

  /** The enclave finishes signing a payment for a request. */
  ghost predicate SignsNow(net: Net, s: State, e: Happening, rid: nat) {
    && World.Possible(net, s, e) && e.FinishSigning?
    && s.jobs[e.job].header.requestId == rid
    && FinishSign(net.crypto, s.vault, s.jobs[e.job], Input(None, true, e.sequence, e.ledger, s.clock)).reply.Ok?
  }

  // ---- The authorization in hand ----

  lemma DeliveredInHand(net: Net, s: State, e: Happening, rid: nat)
    requires World.Possible(net, s, e) && e.Deliver?
    ensures InHand(Next(net, s, e), rid) <==> InHand(s, rid) || GrantsNow(net, s, e, rid)
  {
    hide RefusePayment, SignJob, PoliciesOf, HandleSignPayment;
  }

  lemma FinishedInHand(net: Net, s: State, e: Happening, rid: nat)
    requires World.Possible(net, s, e) && e.FinishSigning?
    ensures InHand(Next(net, s, e), rid) <==> InHand(s, rid) && !SignsNow(net, s, e, rid)
  {
    hide SignJob, PoliciesOf;
  }

  /** A grant puts the authorization in hand, a signing takes it away, nothing else moves it. */
  lemma InHandStep(net: Net, s: State, e: Happening, rid: nat)
    ensures !(GrantsNow(net, s, e, rid) && SignsNow(net, s, e, rid))
    ensures InHand(Next(net, s, e), rid) <==> (InHand(s, rid) && !SignsNow(net, s, e, rid)) || GrantsNow(net, s, e, rid)
  {
    hide InHand, Handle, FinishSign;
    if World.Possible(net, s, e) && e.Deliver? {
      DeliveredInHand(net, s, e, rid);
    } else if World.Possible(net, s, e) && e.FinishSigning? {
      FinishedInHand(net, s, e, rid);
    } else {
      ElsewhereInHand(net, s, e, rid);
    }
  }

  lemma ElsewhereInHand(net: Net, s: State, e: Happening, rid: nat)
    requires !(World.Possible(net, s, e) && (e.Deliver? || e.FinishSigning?))
    ensures InHand(Next(net, s, e), rid) <==> InHand(s, rid)
  {
    hide World.Possible, BeginSign;
  }

  // ---- Over a history ----

  ghost predicate GrantedAt(net: Net, tr: Trace, rid: nat, i: nat) {
    i < |tr.happenings| < |tr.states| && GrantsNow(net, tr.states[i], tr.happenings[i], rid)
  }

  ghost predicate SignedAt(net: Net, tr: Trace, rid: nat, i: nat) {
    i < |tr.happenings| < |tr.states| && SignsNow(net, tr.states[i], tr.happenings[i], rid)
  }

  lemma InHandNext(net: Net, config: Config, tr: Trace, rid: nat, i: nat)
    requires TraceOf(net, config, tr) && i < |tr.happenings|
    ensures !(GrantedAt(net, tr, rid, i) && SignedAt(net, tr, rid, i))
    ensures InHand(tr.states[i + 1], rid) <==>
      (InHand(tr.states[i], rid) && !SignedAt(net, tr, rid, i)) || GrantedAt(net, tr, rid, i)
  {
    hide InHand, Next, GrantsNow, SignsNow;
    assert Follows(net, tr, i);
    InHandStep(net, tr.states[i], tr.happenings[i], rid);
  }

  /** A new authorization was granted after moment f and before moment i. */
  ghost predicate GrantedBetween(net: Net, tr: Trace, rid: nat, f: nat, i: nat) {
    exists g: nat :: f < g < i && GrantedAt(net, tr, rid, g)
  }

  /** Every signing of the request from moment b on was followed, before moment i, by a new
      authorization. */
  ghost predicate Renewed(net: Net, tr: Trace, rid: nat, b: nat, i: nat) {
    forall f: nat :: b <= f < i && SignedAt(net, tr, rid, f) ==> GrantedBetween(net, tr, rid, f, i)
  }

  /** An authorization in hand at one moment is in hand later exactly when every signing in between
      was followed by a new authorization. */
  lemma {:induction false} InHandExactly(net: Net, config: Config, tr: Trace, rid: nat, b: nat, i: nat)
    requires TraceOf(net, config, tr) && b <= i < |tr.states| && InHand(tr.states[b], rid)
    ensures InHand(tr.states[i], rid) <==> Renewed(net, tr, rid, b, i)
  {
    hide InHand, GrantedAt, SignedAt, Follows;
    if b < i {
      InHandExactly(net, config, tr, rid, b, i - 1);
      InHandNext(net, config, tr, rid, i - 1);
      RenewedStep(net, tr, rid, b, i - 1);
    }
  }

  lemma RenewedStep(net: Net, tr: Trace, rid: nat, b: nat, i: nat)
    requires b <= i && !(GrantedAt(net, tr, rid, i) && SignedAt(net, tr, rid, i))
    ensures Renewed(net, tr, rid, b, i + 1) <==>
      (Renewed(net, tr, rid, b, i) && !SignedAt(net, tr, rid, i)) || GrantedAt(net, tr, rid, i)
  {
    hide GrantedAt, SignedAt;
    if GrantedAt(net, tr, rid, i) {
      forall f: nat | b <= f < i + 1 && SignedAt(net, tr, rid, f) ensures GrantedBetween(net, tr, rid, f, i + 1) {
        assert f < i;
      }
    } else if !SignedAt(net, tr, rid, i) {
      forall f: nat ensures GrantedBetween(net, tr, rid, f, i + 1) <==> GrantedBetween(net, tr, rid, f, i) {
        BetweenStep(net, tr, rid, f, i);
      }
    }
  }

  lemma BetweenStep(net: Net, tr: Trace, rid: nat, f: nat, i: nat)
    requires !GrantedAt(net, tr, rid, i)
    ensures GrantedBetween(net, tr, rid, f, i + 1) <==> GrantedBetween(net, tr, rid, f, i)
  {
    hide GrantedAt;
    if GrantedBetween(net, tr, rid, f, i + 1) {
      var g: nat :| f < g < i + 1 && GrantedAt(net, tr, rid, g);
      assert g < i;
    }
  }

  // ---- When a signing began ----

  /** The moment at which the job at position j of the state at moment i began. */
  ghost function BeganAt(net: Net, tr: Trace, i: nat, j: nat): nat {
    if i == 0 || i > |tr.happenings| || i > |tr.states| then 0
    else
      var s, e := tr.states[i - 1], tr.happenings[i - 1];
      if e.BeginSigning? && j == |s.jobs| then i - 1
      else if e.FinishSigning? && World.Possible(net, s, e) && j >= e.job then BeganAt(net, tr, i - 1, j + 1)
      else BeganAt(net, tr, i - 1, j)
  }

  /** Moment b began this job: the authorization was then in hand. */
  ghost predicate Begins(tr: Trace, b: nat, job: Job) {
    b < |tr.states| && BeginSign(tr.states[b].vault, job.header) == Ok(job)
  }

  /** Where the jobs after one happening come from. */
  lemma JobsStep(net: Net, s: State, e: Happening, j: nat)
    requires j < |Next(net, s, e).jobs|
    ensures
      var job := Next(net, s, e).jobs[j];
      if e.BeginSigning? && j == |s.jobs| then BeginSign(s.vault, job.header) == Ok(job)
      else if e.FinishSigning? && World.Possible(net, s, e) && j >= e.job then j + 1 < |s.jobs| && job == s.jobs[j + 1]
      else j < |s.jobs| && job == s.jobs[j]
  {
    hide Handle, FinishSign, PoliciesOf;
  }

  lemma {:induction false} JobBegan(net: Net, config: Config, tr: Trace, i: nat, j: nat)
    requires TraceOf(net, config, tr) && i < |tr.states| && j < |tr.states[i].jobs|
    ensures BeganAt(net, tr, i, j) < i && Begins(tr, BeganAt(net, tr, i, j), tr.states[i].jobs[j])
  {
    hide Next, BeginSign;
    if i > 0 {
      assert Follows(net, tr, i - 1);
      var s, e := tr.states[i - 1], tr.happenings[i - 1];
      JobsStep(net, s, e, j);
      if e.BeginSigning? && j == |s.jobs| {
      } else if e.FinishSigning? && World.Possible(net, s, e) && j >= e.job {
        JobBegan(net, config, tr, i - 1, j + 1);
      } else {
        JobBegan(net, config, tr, i - 1, j);
      }
    }
  }

  lemma BegunInHand(tr: Trace, b: nat, job: Job)
    requires Begins(tr, b, job)
    ensures InHand(tr.states[b], job.header.requestId)
  {
  }

  /** The moment at which the signing that finishes at moment i began. */
  ghost function Beginning(net: Net, tr: Trace, i: nat): nat {
    if i < |tr.happenings| && tr.happenings[i].FinishSigning? then BeganAt(net, tr, i, tr.happenings[i].job) else 0
  }

  /** A signing finds its authorization still in hand exactly when every signing of the request that
      finished since it began was followed by a new authorization. */
  lemma FinishFindsGrantExactly(net: Net, config: Config, tr: Trace, rid: nat, i: nat)
    requires TraceOf(net, config, tr) && SignedAt(net, tr, rid, i)
    ensures Beginning(net, tr, i) < i && InHand(tr.states[Beginning(net, tr, i)], rid)
    ensures InHand(tr.states[i], rid) <==> Renewed(net, tr, rid, Beginning(net, tr, i), i)
  {
    hide InHand, Next, FinishSign, Renewed, Follows, BeganAt;
    var job := tr.states[i].jobs[tr.happenings[i].job];
    JobBegan(net, config, tr, i, tr.happenings[i].job);
    BegunInHand(tr, Beginning(net, tr, i), job);
    InHandExactly(net, config, tr, rid, Beginning(net, tr, i), i);
  }

  // ---- Counting ----

  /** Grants among the first n happenings. */
  ghost function GrantCount(net: Net, tr: Trace, rid: nat, n: nat): nat {
    if n == 0 then 0 else GrantCount(net, tr, rid, n - 1) + if GrantedAt(net, tr, rid, n - 1) then 1 else 0
  }

  /** Grants that found the last one still unused. */
  ghost function OverwrittenCount(net: Net, tr: Trace, rid: nat, n: nat): nat {
    if n == 0 then 0
    else
      OverwrittenCount(net, tr, rid, n - 1)
      + if GrantedAt(net, tr, rid, n - 1) && InHand(tr.states[n - 1], rid) then 1 else 0
  }

  ghost function SigningCount(net: Net, tr: Trace, rid: nat, n: nat): nat {
    if n == 0 then 0 else SigningCount(net, tr, rid, n - 1) + if SignedAt(net, tr, rid, n - 1) then 1 else 0
  }

  /** Signings that found their authorization gone. */
  ghost function OrphanCount(net: Net, tr: Trace, rid: nat, n: nat): nat {
    if n == 0 then 0
    else
      OrphanCount(net, tr, rid, n - 1)
      + if SignedAt(net, tr, rid, n - 1) && !InHand(tr.states[n - 1], rid) then 1 else 0
  }

  function Unused(s: State, rid: nat): nat {
    if InHand(s, rid) then 1 else 0
  }

  /** Every grant is signed, overwritten or still in hand, but for the signings that found none. */
  lemma {:induction false} GrantsAccountedFor(net: Net, config: Config, tr: Trace, rid: nat, n: nat)
    requires TraceOf(net, config, tr) && n < |tr.states|
    ensures SigningCount(net, tr, rid, n) + Unused(tr.states[n], rid) + OverwrittenCount(net, tr, rid, n)
         == GrantCount(net, tr, rid, n) + OrphanCount(net, tr, rid, n)
  {
    hide GrantedAt, SignedAt, Follows;
    if n > 0 {
      GrantsAccountedFor(net, config, tr, rid, n - 1);
      InHandNext(net, config, tr, rid, n - 1);
    }
  }

  /** Signings and the unused authorization stay within the grants exactly when the signings that
      found none are no more than the grants overwritten unused. */
  lemma WithinGrantsExactly(net: Net, config: Config, tr: Trace, rid: nat, n: nat)
    requires TraceOf(net, config, tr) && n < |tr.states|
    ensures SigningCount(net, tr, rid, n) + Unused(tr.states[n], rid) <= GrantCount(net, tr, rid, n)
       <==> OrphanCount(net, tr, rid, n) <= OverwrittenCount(net, tr, rid, n)
  {
    hide *;
    GrantsAccountedFor(net, config, tr, rid, n);
  }

  lemma {:induction false} NoOrphans(net: Net, config: Config, tr: Trace, rid: nat, n: nat)
    requires TraceOf(net, config, tr) && n < |tr.states|
    ensures OrphanCount(net, tr, rid, n) == 0 <==>
      forall i: nat :: i < n && SignedAt(net, tr, rid, i) ==> Renewed(net, tr, rid, Beginning(net, tr, i), i)
  {
    hide InHand, SignedAt, Renewed, Beginning, Follows;
    if n > 0 {
      NoOrphans(net, config, tr, rid, n - 1);
      if SignedAt(net, tr, rid, n - 1) {
        FinishFindsGrantExactly(net, config, tr, rid, n - 1);
      }
    }
  }

  /** One signature per authorization, interleaved or not, as long as every signing of the request
      that finishes while another is under way is followed by a new authorization before that one
      finishes. */
  lemma SigningsWithinGrants(net: Net, config: Config, tr: Trace, rid: nat, n: nat)
    requires TraceOf(net, config, tr) && n < |tr.states|
    requires forall i: nat :: i < n && SignedAt(net, tr, rid, i) ==> Renewed(net, tr, rid, Beginning(net, tr, i), i)
    ensures SigningCount(net, tr, rid, n) + Unused(tr.states[n], rid) <= GrantCount(net, tr, rid, n)
  {
    hide *;
    NoOrphans(net, config, tr, rid, n);
    WithinGrantsExactly(net, config, tr, rid, n);
  }
}
