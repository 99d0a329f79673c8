/** The relay with the chain behind it: when an action the relay calls done has really been applied.
    The relay reads an error text; the controller's storage says what that text was worth. */
module RelayTruth {
  import opened Wrappers
  import opened Protocol
  import opened Books
  import opened BookInvariant
  import opened BookRuns
  import opened BookTerms
  import R = RelayState

  // ---- Steps taken on chain ----

  /** Some result for this step has been accepted, as storage shows it. */
  predicate Taken(b: Book, s: Subject) {
    match s
    case Binding(tid) => tid in b.treasuries && b.treasuries[tid].bound
    case Authorizing(rid) => rid in b.requests && b.requests[rid].destinationHash != Zero
    case Signing(rid) => rid in b.requests && b.requests[rid].signedBlobHash != Zero
    case Failing(rid) => rid in b.requests && b.requests[rid].state == FAILED
    case Other => false
  }

  lemma AcceptedTakes(b: Book, now: nat, c: Call)
    requires SubjectOf(c) != Other && Perform(b, now, c).Ok?
    ensures Taken(After(b, now, c), SubjectOf(c))
  {
    hide BoundHere;
  }

  lemma RequestTaken(b: Book, now: nat, c: Call, s: Subject)
    requires Numbered(b) && (s.Authorizing? || s.Signing? || s.Failing?) && s.rid in b.requests && Perform(b, now, c).Ok?
    requires SubjectOf(c) != s
    ensures Taken(After(b, now, c), s) <==> Taken(b, s)
  {
    hide After, Perform;
    CallTerms(b, now, c, s.rid);
  }

  lemma BindingTaken(b: Book, now: nat, c: Call, tid: nat)
    requires Numbered(b) && tid in b.treasuries && Perform(b, now, c).Ok? && SubjectOf(c) != Binding(tid)
    ensures Taken(After(b, now, c), Binding(tid)) <==> Taken(b, Binding(tid))
  {
    hide After, Numbered, Perform;
    CallAddress(b, now, c, tid);
  }

  lemma NewNotTaken(b: Book, now: nat, c: Call, s: Subject)
    requires Numbered(b) && s != Other && SubjectOf(c) != s
    requires if s.Binding? then s.tid !in b.treasuries else s.rid !in b.requests
    ensures !Taken(After(b, now, c), s)
  {
    hide After, Numbered, Perform;
    if s.Binding? {
      if s.tid in After(b, now, c).treasuries {
        NewTreasuryUnbound(b, now, c, s.tid);
      }
    } else if s.rid in After(b, now, c).requests {
      NewRequestTerms(b, now, c, s.rid);
    }
  }

  /** A step is taken by its own results and by nothing else, and stays taken. */
  lemma TakenStep(b: Book, now: nat, c: Call, s: Subject)
    requires Numbered(b) && s != Other
    ensures Taken(After(b, now, c), s) <==> Taken(b, s) || (Perform(b, now, c).Ok? && SubjectOf(c) == s)
  {
    hide After, Numbered, Perform;
    if Perform(b, now, c).Err? {
      Rejected(b, now, c);
    } else if SubjectOf(c) == s {
      AcceptedTakes(b, now, c);
    } else if if s.Binding? then s.tid !in b.treasuries else s.rid !in b.requests {
      NewNotTaken(b, now, c, s);
    } else if s.Binding? {
      BindingTaken(b, now, c, s.tid);
    } else {
      RequestTaken(b, now, c, s);
    }
  }

  lemma Rejected(b: Book, now: nat, c: Call)
    requires Perform(b, now, c).Err?
    ensures After(b, now, c) == b
  {
  }

  /** Two calls stand for one step: results about the same subject, or confirmations of one policy. */
  predicate SameStep(c: Call, d: Call) {
    if SubjectOf(c) != Other then SubjectOf(d) == SubjectOf(c)
    else c.CallConfirmPolicy? && d.CallConfirmPolicy? && c.res.body == d.res.body
  }

  /** The controller accepted a result for this step among its first n calls. */
  ghost predicate StepTaken(config: Config, es: seq<Event>, n: nat, c: Call) {
    exists i: nat :: i < n && TakesAt(config, es, i, c)
  }

  ghost predicate TakesAt(config: Config, es: seq<Event>, i: nat, c: Call) {
    i < |es| && Accepts(Run(InitialBook(config), es[..i]), es[i]) && SameStep(c, es[i].call)
  }

  /** A step was taken in a run exactly when storage shows it. */
  lemma {:induction false} TakenExactly(config: Config, es: seq<Event>, n: nat, c: Call)
    requires n <= |es| && SubjectOf(c) != Other
    ensures StepTaken(config, es, n, c) <==> Taken(Run(InitialBook(config), es[..n]), SubjectOf(c))
  {
    var b0 := InitialBook(config);
    if n == 0 {
      assert es[..0] == [];
    } else {
      hide Run, Taken, Perform, Inv, After, SubjectOf;
      TakenExactly(config, es, n - 1, c);
      InitialInv(config);
      RunKeepsInv(b0, es[..n - 1]);
      InvNumbered(Run(b0, es[..n - 1]));
      RunStep(b0, es, n - 1);
      TakenStep(Run(b0, es[..n - 1]), es[n - 1].now, es[n - 1].call, SubjectOf(c));
      var now := TakesAt(config, es, n - 1, c);
    }
  }

  // ---- What a refusal means ----

  lemma StagedStep(b: Book, now: nat, c: Call)
    requires Numbered(b) && AllStaged(b)
    ensures AllStaged(After(b, now, c))
  {
    hide After, Numbered, Perform;
    if Perform(b, now, c).Err? {
      Rejected(b, now, c);
    } else {
      forall rid | rid in After(b, now, c).requests ensures Staged(After(b, now, c).requests[rid]) {
        if rid in b.requests {
          CallTerms(b, now, c, rid);
        } else {
          NewRequestTerms(b, now, c, rid);
        }
      }
    }
  }

  lemma {:induction false} RunStaged(config: Config, es: seq<Event>)
    ensures AllStaged(Run(InitialBook(config), es))
  {
    if es != [] {
      hide AllStaged, Inv, After;
      var front, e := es[..|es| - 1], es[|es| - 1];
      RunStaged(config, front);
      InitialInv(config);
      RunKeepsInv(InitialBook(config), front);
      InvNumbered(Run(InitialBook(config), front));
      StagedStep(Run(InitialBook(config), front), e.now, e.call);
    }
  }

  /** A result of the registered enclave for this contract, in the form its entry point reads. */
  predicate Genuine(config: Config, c: Call) {
    && SubjectOf(c) != Other && ResultOf(c).Some?
    && var res := ResultOf(c).value;
       && config.teeAddress != 0 && res.signer == config.teeAddress && BoundHere(config, res.body)
       && res.status == if c.CallSubmitFailure? then 0 else 1
  }

  /** The request has gone past the step, or not come to it, without taking it. */
  predicate PassedOver(b: Book, s: Subject) {
    match s
    case Authorizing(rid) => rid in b.requests && b.requests[rid].destinationHash == Zero
    case Signing(rid) => rid in b.requests && b.requests[rid].signedBlobHash == Zero
    case Failing(rid) => rid in b.requests && b.requests[rid].state != FAILED
    case _ => false
  }

  /** A refusal of a genuine result means "already applied" exactly when the treasury was already
      bound, or the request is in a wrong state it reached by taking the step. No other error means it:
      not a policy violation, not an expired deadline, not a mismatched binding. */
  lemma RefusalExactly(b: Book, now: nat, c: Call, e: Error)
    requires AllStaged(b) && Genuine(b.config, c) && Perform(b, now, c) == Err(e)
    ensures Taken(b, SubjectOf(c)) <==> e == TreasuryAlreadyBound || (e == WrongState && !PassedOver(b, SubjectOf(c)))
  {
    hide BoundHere, Release;
    match c
    case CallSubmitFailure(res) => FailureRefused(b, now, res, e);
    case _ =>
  }

  lemma FailureRefused(b: Book, now: nat, res: TeeResult, e: Error)
    requires AllStaged(b) && Genuine(b.config, CallSubmitFailure(res)) && SubmitFailure(b, res) == Err(e)
    ensures Taken(b, Failing(res.body.requestId)) <==>
      e == TreasuryAlreadyBound || (e == WrongState && !PassedOver(b, Failing(res.body.requestId)))
  {
    hide BoundHere;
  }

  // ---- The relay's view and the chain's ----

  /** The controller's run, the call the relay makes with each action's result, and how many of the
      controller's calls come before each submission. */
  datatype Chain = Chain(config: Config, es: seq<Event>, call: nat -> Call, moment: (nat, nat) -> nat)

  /** The controller when poll i submits at log j. */
  ghost function BookAt(chain: Chain, i: nat, j: nat): Book
    requires chain.moment(i, j) <= |chain.es|
  {
    Run(InitialBook(chain.config), chain.es[..chain.moment(i, j)])
  }

  /** What the node answered is what the controller did, or would have done. */
  ghost predicate TrueAnswer(run: R.Run, chain: Chain, i: nat, j: nat) {
    R.Handles(run, i, j) && run.chain[j].action.Some? && run.chain[j].action.value !in R.Coming(run, i, j).done ==>
      && chain.moment(i, j) <= |chain.es|
      && var id := run.chain[j].action.value;
         match run.polls[i].xs(j).answer
         case Result(_, Accepted) =>
           && chain.moment(i, j) < |chain.es| && chain.es[chain.moment(i, j)].call == chain.call(id)
           && Accepts(BookAt(chain, i, j), chain.es[chain.moment(i, j)])
         case Result(_, Refused(e, _)) => exists now: nat :: Perform(BookAt(chain, i, j), now, chain.call(id)) == Err(e)
         case _ => true
  }

  ghost predicate Grounded(run: R.Run, chain: Chain) {
    forall i: nat, j: nat {:trigger TrueAnswer(run, chain, i, j)} :: TrueAnswer(run, chain, i, j)
  }

  /** Once poll i is done with log j, the step of its action has been taken. */
  ghost predicate AppliedBy(run: R.Run, chain: Chain, id: nat, i: nat, j: nat) {
    && i < |run.polls|
    && var accepted := run.polls[i].xs(j).answer.Result? && run.polls[i].xs(j).answer.sent.Accepted?;
       StepTaken(chain.config, chain.es, chain.moment(i, j) + if accepted then 1 else 0, chain.call(id))
  }

  /** A completion that applied nothing: the relay gave up, or took a failed submission for one applied
      before although the step was not taken. */
  ghost predicate WithoutEffect(run: R.Run, chain: Chain, id: nat, reason: R.Reason, i: nat, j: nat) {
    && reason != R.Submitted && i < |run.polls|
    && match run.polls[i].xs(j).answer
       case Result(_, Refused(e, _)) =>
         if SubjectOf(chain.call(id)) != Other && chain.moment(i, j) <= |chain.es| then
           e != TreasuryAlreadyBound && (e == WrongState ==> PassedOver(BookAt(chain, i, j), SubjectOf(chain.call(id))))
         else !StepTaken(chain.config, chain.es, chain.moment(i, j), chain.call(id))
       case _ => !StepTaken(chain.config, chain.es, chain.moment(i, j), chain.call(id))
  }

  lemma RefusedWithoutEffect(run: R.Run, chain: Chain, id: nat, i: nat, j: nat, e: Error, now: nat)
    requires chain.moment(i, j) <= |chain.es| && Genuine(chain.config, chain.call(id))
    requires Perform(BookAt(chain, i, j), now, chain.call(id)) == Err(e)
    ensures StepTaken(chain.config, chain.es, chain.moment(i, j), chain.call(id)) <==>
      e == TreasuryAlreadyBound || (e == WrongState && !PassedOver(BookAt(chain, i, j), SubjectOf(chain.call(id))))
  {
    hide Run, Perform, Genuine, Inv, AllStaged, PassedOver, StepTaken;
    RunStaged(chain.config, chain.es[..chain.moment(i, j)]);
    InitialInv(chain.config);
    ConfigStays(InitialBook(chain.config), chain.es[..chain.moment(i, j)]);
    GenuineHas(chain.config, chain.call(id));
    TakenExactly(chain.config, chain.es, chain.moment(i, j), chain.call(id));
    RefusalExactly(BookAt(chain, i, j), now, chain.call(id), e);
  }

  lemma GenuineHas(config: Config, c: Call)
    requires Genuine(config, c)
    ensures SubjectOf(c) != Other
  {
  }

  /** A completion leaves the step taken exactly when it is not one without effect. */
  lemma AppliedExactly(run: R.Run, chain: Chain, id: nat, reason: R.Reason, i: nat, j: nat)
    requires Grounded(run, chain) && R.CompletedAt(run, id, reason, i, j)
    requires SubjectOf(chain.call(id)) != Other ==> Genuine(chain.config, chain.call(id))
    requires SubjectOf(chain.call(id)) == Other ==> chain.call(id).CallConfirmPolicy?
    ensures AppliedBy(run, chain, id, i, j) <==> !WithoutEffect(run, chain, id, reason, i, j)
  {
    assert TrueAnswer(run, chain, i, j);
    CompletionAnswer(run, id, reason, i, j);
    hide R.Handles, R.Coming, R.CompletedAt, R.IsAlreadyApplied, Grounded, Genuine, Perform, Run, StepTaken, PassedOver, SubjectOf;
    match run.polls[i].xs(j).answer
    case Result(_, Accepted) => AcceptedApplies(chain, id, i, j);
    case Result(_, Refused(e, _)) =>
      if SubjectOf(chain.call(id)) != Other {
        var now: nat :| Perform(BookAt(chain, i, j), now, chain.call(id)) == Err(e);
        RefusedWithoutEffect(run, chain, id, i, j, e, now);
      }
    case _ =>
  }

  lemma CompletionAnswer(run: R.Run, id: nat, reason: R.Reason, i: nat, j: nat)
    requires R.CompletedAt(run, id, reason, i, j)
    ensures R.Handles(run, i, j) && run.chain[j].action == Some(id) && id !in R.Coming(run, i, j).done
    ensures reason == R.Submitted <==> run.polls[i].xs(j).answer.Result? && run.polls[i].xs(j).answer.sent.Accepted?
  {
    hide R.PollAll, R.ScanLogs, R.IsAlreadyApplied;
  }

  lemma AcceptedApplies(chain: Chain, id: nat, i: nat, j: nat)
    requires chain.moment(i, j) < |chain.es| && chain.es[chain.moment(i, j)].call == chain.call(id)
    requires Accepts(BookAt(chain, i, j), chain.es[chain.moment(i, j)])
    requires SubjectOf(chain.call(id)) == Other ==> chain.call(id).CallConfirmPolicy?
    ensures StepTaken(chain.config, chain.es, chain.moment(i, j) + 1, chain.call(id))
  {
    hide Run, Accepts;
    assert TakesAt(chain.config, chain.es, chain.moment(i, j), chain.call(id));
  }

  // ---- Everything behind the cursor ----

  /** The log's action was completed, and its step had been taken by then. */
  ghost predicate AppliedWhenDone(run: R.Run, chain: Chain, k: nat) {
    && k < |run.chain| && run.chain[k].action.Some?
    && exists reason: R.Reason, i: nat ::
         R.CompletedAt(run, run.chain[k].action.value, reason, i, k) && AppliedBy(run, chain, run.chain[k].action.value, i, k)
  }

  /** Poll i completes log k's action without effect. */
  ghost predicate EmptyAt(run: R.Run, chain: Chain, reason: R.Reason, i: nat, k: nat) {
    && k < |run.chain| && run.chain[k].action.Some?
    && R.CompletedAt(run, run.chain[k].action.value, reason, i, k)
    && WithoutEffect(run, chain, run.chain[k].action.value, reason, i, k)
  }

  /** The relay submits results the enclave signed for this contract. */
  ghost predicate Submits(run: R.Run, chain: Chain) {
    forall k: nat :: k < |run.chain| && run.chain[k].action.Some? ==>
      var c := chain.call(run.chain[k].action.value);
      if SubjectOf(c) != Other then Genuine(chain.config, c) else c.CallConfirmPolicy?
  }

  /** Log by log: applied when done, or passed on a hard failure, or completed without effect. */
  lemma BehindExactly(run: R.Run, chain: Chain, k: nat)
    requires R.DistinctActions(run.chain) && Grounded(run, chain) && Submits(run, chain) && R.Behind(run, k)
    ensures AppliedWhenDone(run, chain, k) <==>
      (forall i: nat :: !R.FailsAt(run, i, k)) && (forall reason: R.Reason, i: nat :: !EmptyAt(run, chain, reason, i, k))
  {
    hide R.Behind, R.FailsAt, R.CompletedAt, R.IsDone, Grounded, WithoutEffect, AppliedBy, R.DistinctActions, Genuine, SubjectOf;
    LogBehind(run, k);
    if AppliedWhenDone(run, chain, k) {
      var id := run.chain[k].action.value;
      var reason: R.Reason, i: nat :| R.CompletedAt(run, id, reason, i, k) && AppliedBy(run, chain, id, i, k);
      AppliedExactly(run, chain, id, reason, i, k);
      CompletedIsDone(run, id, reason, i, k);
      forall i': nat ensures !R.FailsAt(run, i', k) {
        if R.FailsAt(run, i', k) {
          R.FailedStaysUndone(run, i', k);
        }
      }
      forall other: R.Reason, i': nat ensures !EmptyAt(run, chain, other, i', k) {
        if EmptyAt(run, chain, other, i', k) {
          R.CompletedOnce(run, id, reason, i, other, i', k);
        }
      }
    } else if forall i: nat :: !R.FailsAt(run, i, k) {
      var reason, i := CompletedHere(run, k);
      AppliedExactly(run, chain, run.chain[k].action.value, reason, i, k);
      assert EmptyAt(run, chain, reason, i, k);
    }
  }

  lemma LogBehind(run: R.Run, k: nat)
    requires R.Behind(run, k)
    ensures k < |run.chain|
  {
  }

  lemma CompletedIsDone(run: R.Run, id: nat, reason: R.Reason, i: nat, k: nat)
    requires R.CompletedAt(run, id, reason, i, k)
    ensures R.IsDone(run, k)
  {
    hide R.PollAll, R.ScanLogs, R.Completes, R.Coming, R.InRange;
    assert R.EverCompleted(run, id, |run.polls|);
    R.DoneExactly(run, |run.polls|, id);
  }

  /** A log passed without a hard failure was completed, at that very log. */
  lemma CompletedHere(run: R.Run, k: nat) returns (reason: R.Reason, i: nat)
    requires R.DistinctActions(run.chain) && R.Behind(run, k) && forall i: nat :: !R.FailsAt(run, i, k)
    ensures run.chain[k].action.Some? && R.CompletedAt(run, run.chain[k].action.value, reason, i, k)
  {
    hide R.Behind, R.FailsAt, R.Passes, R.PollAll, R.ScanLogs, R.Completes, R.Coming, R.InRange;
    LogBehind(run, k);
    var p := R.PassingPoll(run, k);
    R.CompletedOrDone(run, p, k);
    var id := run.chain[k].action.value;
    var why: R.Reason, at: nat, j: nat :| at < |run.polls| && R.CompletedAt(run, id, why, at, j);
    assert j == k;
    reason, i := why, at;
  }

  /** With every id logged once: every handled log behind the cursor had its step taken when the relay
      called it done, exactly when no poll passed one on a hard failure and none was completed without
      effect. */
  lemma EveryPassedLogAppliedExactly(run: R.Run, chain: Chain)
    requires R.DistinctActions(run.chain) && Grounded(run, chain) && Submits(run, chain)
    ensures (forall k: nat :: R.Behind(run, k) ==> AppliedWhenDone(run, chain, k)) <==>
      && (forall i: nat, k: nat :: R.Behind(run, k) ==> !R.FailsAt(run, i, k))
      && (forall reason: R.Reason, i: nat, k: nat :: R.Behind(run, k) ==> !EmptyAt(run, chain, reason, i, k))
  {
    hide R.Behind, R.FailsAt, AppliedWhenDone, EmptyAt, Grounded, R.DistinctActions, Submits;
    forall k: nat | R.Behind(run, k)
      ensures AppliedWhenDone(run, chain, k) <==>
        (forall i: nat :: !R.FailsAt(run, i, k)) && (forall reason: R.Reason, i: nat :: !EmptyAt(run, chain, reason, i, k))
    {
      BehindExactly(run, chain, k);
    }
  }
}
