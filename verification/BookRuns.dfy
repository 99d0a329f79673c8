/** Whole runs of the controller: any calls, by anyone, at any times, with any results the enclave's
    key might have signed. */
module BookRuns {
  import opened Protocol
  import opened Books
  import opened BookInvariant

  /** A call and the block timestamp it sees. */
  datatype Event = Event(now: nat, call: Call)

  function Run(b: Book, events: seq<Event>): Book {
    if events == [] then b
    else
      var last := events[|events| - 1];
      After(Run(b, events[..|events| - 1]), last.now, last.call)
  }

  /** The call was accepted, not reverted. */
  predicate Accepts(b: Book, e: Event) {
    Perform(b, e.now, e.call).Ok?
  }

  lemma RunStep(b: Book, es: seq<Event>, i: nat)
    requires i < |es|
    ensures Run(b, es[..i + 1]) == After(Run(b, es[..i]), es[i].now, es[i].call)
  {
    assert es[..i + 1][..i] == es[..i];
  }

  lemma {:induction false} RunKeepsInv(b: Book, es: seq<Event>)
    requires Inv(b)
    ensures Inv(Run(b, es))
  {
    hide Inv, After;
    if es != [] {
      RunKeepsInv(b, es[..|es| - 1]);
      CallKeepsInv(Run(b, es[..|es| - 1]), es[|es| - 1].now, es[|es| - 1].call);
    }
  }

  lemma InvNumbered(b: Book)
    requires Inv(b)
    ensures Numbered(b)
  {
    hide Numbered, TreasuryOk, ListOk, RequestOk, Conserved;
  }

  // ---- Budget conservation ----

  /** In every reachable state the reserved counter of each treasury is the sum of what its live and
      settled requests reserve, and giving any one reservation back succeeds. */
  lemma BudgetConservation(config: Config, es: seq<Event>)
    ensures
      var b := Run(InitialBook(config), es);
      && (forall tid :: tid in b.treasuries ==>
            b.treasuries[tid].reservedDrops == Total(b.requests, b.requestCount, tid, Reserving))
      && (forall rid, final ::
            (rid in b.requests && (b.requests[rid].state == CREATED || Counts(Reserving, b.requests[rid].state)))
            ==> Release(b, rid, final).Ok?)
  {
    InitialInv(config);
    RunKeepsInv(InitialBook(config), es);
    var b := Run(InitialBook(config), es);
    hide TreasuryOk, ListOk, RequestOk, Release, Total, Run;
    forall rid, final | rid in b.requests && (b.requests[rid].state == CREATED || Counts(Reserving, b.requests[rid].state))
      ensures Release(b, rid, final).Ok?
    {
      ReleaseNeverUnderflows(b, rid, final);
    }
  }

  // ---- What one accepted call does ----

  predicate TreasuryCall(c: Call) {
    c.CallBind? || c.CallRequestPolicyUpdate? || c.CallConfirmPolicy? || c.CallSetTreasuryPaused?
  }

  predicate RequestCall(c: Call) {
    c.CallSubmitAuthorization? || c.CallSubmitSignedPayment? || c.CallReportBroadcast? || c.CallMarkSettled? || EndingCall(c)
  }

  predicate EndingCall(c: Call) {
    c.CallCancelRequest? || c.CallExpireRequest? || c.CallSubmitFailure?
  }

  function TouchedRequest(c: Call): nat {
    match c
    case CallSubmitAuthorization(res) => if res.body.Authorization? then res.body.requestId else 0
    case CallSubmitSignedPayment(res) => if res.body.SignedPayment? then res.body.requestId else 0
    case CallReportBroadcast(rid, _) => rid
    case CallMarkSettled(_, rid, _) => rid
    case CallCancelRequest(_, rid) => rid
    case CallExpireRequest(rid) => rid
    case CallSubmitFailure(res) => if res.body.Failure? then res.body.requestId else 0
    case _ => 0
  }

  predicate AuthorizesFor(b: Book, c: Call, tid: nat) {
    && c.CallSubmitAuthorization? && c.res.body.Authorization?
    && c.res.body.requestId in b.requests && b.requests[c.res.body.requestId].treasuryId == tid
  }

  predicate ConfirmsFor(c: Call, tid: nat) {
    c.CallConfirmPolicy? && c.res.body.Confirm? && c.res.body.treasuryId == tid
  }

  predicate UpdatesFor(c: Call, tid: nat) {
    c.CallRequestPolicyUpdate? && c.tid == tid
  }

  /** What an accepted call may do to the budget side of a treasury. */
  ghost predicate BudgetStep(b: Book, c: Call, tid: nat, t: Treasury, t': Treasury) {
    if AuthorizesFor(b, c, tid) then
      && t' == t.(reservedDrops := t.reservedDrops + c.res.body.amountDrops)
      && t'.reservedDrops <= t.policy.maxTotalDrops
    else if ConfirmsFor(c, tid) then
      && t.pendingPolicyCommitment == PolicyCommitment(c.res.body.policy)
      && t' == t.(pendingPolicyCommitment := Zero, policy := c.res.body.policy, policyCommitment := c.res.body.commitment)
    else if UpdatesFor(c, tid) then
      t' == t.(pendingPolicyCommitment := PolicyCommitment(c.policy)) && t.reservedDrops <= c.policy.maxTotalDrops
    else
      && t'.policy == t.policy && t'.pendingPolicyCommitment == t.pendingPolicyCommitment
      && t'.reservedDrops <= t.reservedDrops && (t.bound ==> t'.bound)
  }

  /** A request call rewrites one request, raising its state number, and at most its treasury's
      reserved counter. */
  ghost predicate MovesRequest(b: Book, c: Call, b': Book) {
    var rid := TouchedRequest(c);
    && b'.config == b.config && b'.requestCount == b.requestCount && rid in b.requests && rid in b'.requests
    && b'.requests == b.requests[rid := b'.requests[rid]]
    && SameIdentity(b.requests[rid], b'.requests[rid])
    && Number(b'.requests[rid].state) > Number(b.requests[rid].state) && Number(b.requests[rid].state) < Number(SETTLED)
    && (b'.requests[rid].state == SETTLED <==> c.CallMarkSettled?)
    && ((b'.treasuries == b.treasuries && !c.CallSubmitAuthorization?)
        || MovesReserved(b, c, b.requests[rid].treasuryId, b'))
  }

  ghost predicate MovesReserved(b: Book, c: Call, tid: nat, b': Book) {
    && tid in b.treasuries && tid in b'.treasuries
    && b'.treasuries == b.treasuries[tid := b'.treasuries[tid]]
    && b'.treasuries[tid] == b.treasuries[tid].(reservedDrops := b'.treasuries[tid].reservedDrops)
    && BudgetStep(b, c, tid, b.treasuries[tid], b'.treasuries[tid])
  }

  lemma PutMoves(b: Book, c: Call, rid: nat, r: Request, reserved: nat)
    requires EndingCall(c) && rid == TouchedRequest(c) && rid in b.requests && SameIdentity(b.requests[rid], r)
    requires Number(r.state) > Number(SETTLED) && Number(b.requests[rid].state) < Number(SETTLED)
    requires r.treasuryId in b.treasuries && reserved <= b.treasuries[r.treasuryId].reservedDrops
    ensures MovesRequest(b, c, Put(b, rid, r, reserved))
  {
    var b' := Put(b, rid, r, reserved);
    assert BudgetStep(b, c, r.treasuryId, b.treasuries[r.treasuryId], b'.treasuries[r.treasuryId]);
    hide BudgetStep;
    assert b'.requests == b.requests[rid := b'.requests[rid]];
  }

  lemma ReleaseCreatedMoves(b: Book, c: Call, rid: nat, final: RequestState)
    requires EndingCall(c) && rid == TouchedRequest(c) && rid in b.requests && b.requests[rid].state == CREATED
    requires Number(final) > Number(SETTLED)
    ensures Release(b, rid, final).Ok? && MovesRequest(b, c, Release(b, rid, final).value)
  {
    hide MovesReserved, BudgetStep;
  }

  lemma ReleaseMoves(b: Book, c: Call, rid: nat, final: RequestState)
    requires EndingCall(c) && rid == TouchedRequest(c) && rid in b.requests && Release(b, rid, final).Ok?
    requires Number(final) > Number(SETTLED) && Number(b.requests[rid].state) < Number(SETTLED)
    ensures MovesRequest(b, c, Release(b, rid, final).value)
  {
    assert forall r: Request :: SameIdentity(r, r.(state := final));
    hide *;
    var r := b.requests[rid];
    if r.state == CREATED {
      ReleaseCreatedMoves(b, c, rid, final);
    } else {
      ReleasePuts(b, rid, final);
      PutMoves(b, c, rid, r.(state := final), b.treasuries[r.treasuryId].reservedDrops - r.amountDrops);
    }
  }

  lemma EndingCallMoves(b: Book, now: nat, c: Call)
    requires EndingCall(c) && Perform(b, now, c).Ok?
    ensures MovesRequest(b, c, After(b, now, c))
  {
    hide BoundHere, Release, MovesRequest;
    match c
    case CallCancelRequest(_, rid) => ReleaseMoves(b, c, rid, CANCELLED);
    case CallExpireRequest(rid) => ReleaseMoves(b, c, rid, EXPIRED);
    case CallSubmitFailure(res) => ReleaseMoves(b, c, res.body.requestId, FAILED);
  }

  lemma RequestCallMoves(b: Book, now: nat, c: Call)
    requires RequestCall(c) && Perform(b, now, c).Ok?
    ensures MovesRequest(b, c, After(b, now, c))
  {
    hide BoundHere, Release;
    if EndingCall(c) {
      EndingCallMoves(b, now, c);
    }
  }

  lemma TreasuryCallRewrites(b: Book, now: nat, c: Call)
    requires TreasuryCall(c) && Perform(b, now, c).Ok?
    ensures
      var b', tid := After(b, now, c), TouchedTreasury(c);
      && b'.config == b.config && b'.requests == b.requests && b'.requestCount == b.requestCount && tid in b.treasuries && tid in b'.treasuries
      && b'.treasuries == b.treasuries[tid := b'.treasuries[tid]]
      && BudgetStep(b, c, tid, b.treasuries[tid], b'.treasuries[tid])
      && (b.treasuries[tid].bound ==> b'.treasuries[tid].bound)
  {
    hide BoundHere, ValidPolicy, TreasuryHeader;
  }

  ghost predicate AddsRequest(b: Book, b': Book) {
    || (b'.requests == b.requests && b'.requestCount == b.requestCount)
    || (&& b'.requestCount == b.requestCount + 1 && b'.requestCount in b'.requests
        && b'.requests == b.requests[b'.requestCount := b'.requests[b'.requestCount]]
        && b'.requests[b'.requestCount].state == CREATED)
  }

  /** The remaining calls change flags, or add one treasury or one request. */
  lemma OtherCallAdds(b: Book, now: nat, c: Call)
    requires !TreasuryCall(c) && !RequestCall(c) && Perform(b, now, c).Ok? && Numbered(b)
    ensures
      var b' := After(b, now, c);
      && b'.config == b.config && AddsRequest(b, b')
      && (forall rid :: rid in b.requests ==> rid in b'.requests && b'.requests[rid] == b.requests[rid])
      && (forall tid :: tid in b.treasuries ==> (
            && tid in b'.treasuries
            && b'.treasuries[tid] == b.treasuries[tid].(nextNonce := b'.treasuries[tid].nextNonce)))
      && (forall tid :: tid in b'.treasuries && tid !in b.treasuries ==> (
            b'.treasuries[tid].reservedDrops == 0 && b'.treasuries[tid].pendingPolicyCommitment == Zero))
  {
    hide BoundHere, ValidPolicy, TreasuryHeader, RequestHeader;
  }

  lemma RequestCallTreasury(b: Book, c: Call, b': Book, tid: nat)
    requires RequestCall(c) && MovesRequest(b, c, b') && tid in b.treasuries
    ensures tid in b'.treasuries && BudgetStep(b, c, tid, b.treasuries[tid], b'.treasuries[tid])
  {
  }

  lemma TreasuryStep(b: Book, now: nat, c: Call, tid: nat)
    requires Numbered(b) && tid in b.treasuries && Perform(b, now, c).Ok?
    ensures
      var b' := After(b, now, c);
      && tid in b'.treasuries && BudgetStep(b, c, tid, b.treasuries[tid], b'.treasuries[tid])
      && (b.treasuries[tid].bound ==> b'.treasuries[tid].bound)
  {
    hide After, Perform, MovesRequest;
    if TreasuryCall(c) {
      TreasuryCallRewrites(b, now, c);
    } else if RequestCall(c) {
      RequestCallMoves(b, now, c);
      RequestCallTreasury(b, c, After(b, now, c), tid);
    } else {
      OtherCallAdds(b, now, c);
    }
  }

  lemma NewTreasuryIsEmpty(b: Book, now: nat, c: Call, tid: nat)
    requires Numbered(b) && tid !in b.treasuries && tid in After(b, now, c).treasuries
    ensures
      var t := After(b, now, c).treasuries[tid];
      && t.reservedDrops == 0 && t.pendingPolicyCommitment == Zero
      && Perform(b, now, c).Ok? && !TreasuryCall(c) && !AuthorizesFor(b, c, tid)
  {
    assert Perform(b, now, c).Err? ==> After(b, now, c) == b;
    hide After, Perform;
    if TreasuryCall(c) {
      TreasuryCallRewrites(b, now, c);
    } else if RequestCall(c) {
      RequestCallMoves(b, now, c);
    } else {
      OtherCallAdds(b, now, c);
    }
  }

  lemma ConfigStep(b: Book, now: nat, c: Call)
    requires Numbered(b)
    ensures After(b, now, c).config == b.config
  {
    assert Perform(b, now, c).Err? ==> After(b, now, c) == b;
    hide After, Perform, BudgetStep, MovesReserved;
    if Perform(b, now, c).Ok? {
      if TreasuryCall(c) {
        TreasuryCallRewrites(b, now, c);
      } else if RequestCall(c) {
        RequestCallMoves(b, now, c);
      } else {
        OtherCallAdds(b, now, c);
      }
    }
  }

  lemma {:induction false} ConfigStays(b: Book, es: seq<Event>)
    requires Inv(b)
    ensures Run(b, es).config == b.config
  {
    if es != [] {
      var front, e := es[..|es| - 1], es[|es| - 1];
      assert Run(b, es) == After(Run(b, front), e.now, e.call);
      hide *;
      ConfigStays(b, front);
      RunKeepsInv(b, front);
      InvNumbered(Run(b, front));
      ConfigStep(Run(b, front), e.now, e.call);
    }
  }

  // ---- A request only moves forward ----

  /** One call either leaves a request record alone or raises its state number. */
  lemma RequestStep(b: Book, now: nat, c: Call, rid: nat)
    requires Numbered(b) && rid in b.requests
    ensures
      var b' := After(b, now, c);
      && rid in b'.requests && SameIdentity(b.requests[rid], b'.requests[rid])
      && (b'.requests[rid] == b.requests[rid] || Number(b'.requests[rid].state) > Number(b.requests[rid].state))
  {
    assert Perform(b, now, c).Err? ==> After(b, now, c) == b;
    hide After, Perform, BudgetStep, MovesReserved;
    if Perform(b, now, c).Ok? {
      if TreasuryCall(c) {
        TreasuryCallRewrites(b, now, c);
      } else if RequestCall(c) {
        RequestCallMoves(b, now, c);
      } else {
        OtherCallAdds(b, now, c);
      }
    }
  }

  lemma {:induction false} RequestRises(b: Book, es: seq<Event>, rid: nat, i: nat, j: nat)
    requires Inv(b) && i <= j <= |es| && rid in Run(b, es[..i]).requests
    ensures
      rid in Run(b, es[..j]).requests && var r, s := Run(b, es[..i]).requests[rid], Run(b, es[..j]).requests[rid];
      SameIdentity(r, s) && (s == r || Number(s.state) > Number(r.state))
  {
    hide Inv, Numbered, After, Run;
    if i < j {
      RequestRises(b, es, rid, i, j - 1);
      RunKeepsInv(b, es[..j - 1]);
      RunStep(b, es, j - 1);
      var b' := Run(b, es[..j - 1]);
      InvNumbered(b');
      RequestStep(b', es[j - 1].now, es[j - 1].call, rid);
    }
  }

  // ---- Every signed result takes effect at most once ----

  /** What a result is about. Two results on one subject stand for the same step. */
  datatype Subject = Binding(tid: nat) | Authorizing(rid: nat) | Signing(rid: nat) | Failing(rid: nat) | Other

  function SubjectOf(c: Call): Subject {
    match c
    case CallBind(res) => if res.body.Bind? then Binding(res.body.treasuryId) else Other
    case CallSubmitAuthorization(res) => if res.body.Authorization? then Authorizing(res.body.requestId) else Other
    case CallSubmitSignedPayment(res) => if res.body.SignedPayment? then Signing(res.body.requestId) else Other
    case CallSubmitFailure(res) => if res.body.Failure? then Failing(res.body.requestId) else Other
    case _ => Other
  }

  /** The step has been taken, or can no longer be. */
  predicate Spent(b: Book, s: Subject) {
    match s
    case Binding(tid) => tid in b.treasuries && b.treasuries[tid].bound
    case Authorizing(rid) => rid in b.requests && Number(b.requests[rid].state) > Number(CREATED)
    case Signing(rid) => rid in b.requests && Number(b.requests[rid].state) > Number(AUTHORIZED)
    case Failing(rid) => rid in b.requests && Number(b.requests[rid].state) > Number(AUTHORIZED)
    case Other => false
  }

  lemma SpentIsRejected(b: Book, now: nat, c: Call)
    requires Spent(b, SubjectOf(c))
    ensures Perform(b, now, c).Err?
  {
    hide BoundHere, Release, Put;
  }

  lemma AcceptedIsSpent(b: Book, now: nat, c: Call)
    requires SubjectOf(c) != Other && Perform(b, now, c).Ok?
    ensures Spent(After(b, now, c), SubjectOf(c))
  {
    hide BoundHere;
  }

  lemma BoundStays(b: Book, now: nat, c: Call, tid: nat)
    requires Numbered(b) && tid in b.treasuries && b.treasuries[tid].bound
    ensures tid in After(b, now, c).treasuries && After(b, now, c).treasuries[tid].bound
  {
    hide Perform, BudgetStep;
    if Perform(b, now, c).Ok? {
      TreasuryStep(b, now, c, tid);
    }
  }

  lemma SpentStays(b: Book, now: nat, c: Call, s: Subject)
    requires Numbered(b) && Spent(b, s)
    ensures Spent(After(b, now, c), s)
  {
    hide After;
    if s.Binding? {
      BoundStays(b, now, c, s.tid);
    } else {
      RequestStep(b, now, c, s.rid);
    }
  }

  lemma {:induction false} SpentForever(b: Book, es: seq<Event>, s: Subject, i: nat, j: nat)
    requires Inv(b) && i <= j <= |es| && Spent(Run(b, es[..i]), s)
    ensures Spent(Run(b, es[..j]), s)
  {
    hide *;
    if i < j {
      SpentForever(b, es, s, i, j - 1);
      RunKeepsInv(b, es[..j - 1]);
      RunStep(b, es, j - 1);
      var b' := Run(b, es[..j - 1]);
      InvNumbered(b');
      SpentStays(b', es[j - 1].now, es[j - 1].call, s);
    }
  }

  /** Once a bind, authorization, signature or failure result is accepted, every later result for
      the same step is rejected: the same one replayed, or another. */
  lemma ResultTakesEffectOnce(b: Book, es: seq<Event>, i: nat, j: nat)
    requires Inv(b) && i < j < |es|
    requires Accepts(Run(b, es[..i]), es[i]) && SubjectOf(es[i].call) != Other
    requires SubjectOf(es[j].call) == SubjectOf(es[i].call)
    ensures !Accepts(Run(b, es[..j]), es[j])
  {
    AcceptedIsSpent(Run(b, es[..i]), es[i].now, es[i].call);
    RunStep(b, es, i);
    hide Run, Perform, Spent, Inv, After;
    SpentForever(b, es, SubjectOf(es[i].call), i + 1, j);
    SpentIsRejected(Run(b, es[..j]), es[j].now, es[j].call);
  }

}
