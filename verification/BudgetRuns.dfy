/** Caps and policy confirmations over whole runs of the controller. */
module BudgetRuns {
  import opened Wrappers
  import opened Protocol
  import opened Books
  import opened BookInvariant
  import opened BookRuns

  function ReservedOf(b: Book, tid: nat): nat {
    if tid in b.treasuries then b.treasuries[tid].reservedDrops else 0
  }

  function CapOf(b: Book, tid: nat): nat {
    if tid in b.treasuries then b.treasuries[tid].policy.maxTotalDrops else 0
  }

  function PendingOf(b: Book, tid: nat): Bytes32 {
    if tid in b.treasuries then b.treasuries[tid].pendingPolicyCommitment else Zero
  }

  /** The cap of the pending policy. */
  function PendingCap(b: Book, tid: nat): nat {
    match PendingOf(b, tid)
    case Keccak(PolicyEncoding(p)) => p.maxTotalDrops
    case _ => 0
  }

  /** One call, seen from one treasury's budget. */
  lemma BudgetEffect(b: Book, e: Event, tid: nat)
    requires Inv(b)
    ensures
      var b' := After(b, e.now, e.call);
      if !Accepts(b, e) then b' == b
      else if AuthorizesFor(b, e.call, tid) then
        && ReservedOf(b', tid) == ReservedOf(b, tid) + e.call.res.body.amountDrops <= CapOf(b, tid)
        && CapOf(b', tid) == CapOf(b, tid) && PendingOf(b', tid) == PendingOf(b, tid)
      else if ConfirmsFor(e.call, tid) then
        && PendingOf(b, tid) == PolicyCommitment(e.call.res.body.policy) && PendingOf(b', tid) == Zero
        && ReservedOf(b', tid) == ReservedOf(b, tid) && CapOf(b', tid) == e.call.res.body.policy.maxTotalDrops
      else if UpdatesFor(e.call, tid) then
        && ReservedOf(b', tid) == ReservedOf(b, tid) <= e.call.policy.maxTotalDrops
        && CapOf(b', tid) == CapOf(b, tid) && PendingOf(b', tid) == PolicyCommitment(e.call.policy)
      else
        && ReservedOf(b', tid) <= ReservedOf(b, tid) && PendingOf(b', tid) == PendingOf(b, tid)
        && CapOf(b', tid) >= CapOf(b, tid) && (tid in b.treasuries ==> CapOf(b', tid) == CapOf(b, tid))
  {
    InvNumbered(b);
    assert !Accepts(b, e) ==> After(b, e.now, e.call) == b;
    if tid !in b.treasuries {
      UnknownTreasuryCalls(b, e, tid);
    }
    hide Inv, Perform, After, Numbered;
    if Accepts(b, e) {
      if tid in b.treasuries {
        TreasuryStep(b, e.now, e.call, tid);
      } else if tid in After(b, e.now, e.call).treasuries {
        NewTreasuryIsEmpty(b, e.now, e.call, tid);
      }
    }
  }

  lemma UnknownTreasuryCalls(b: Book, e: Event, tid: nat)
    requires tid !in b.treasuries
    ensures AuthorizesFor(b, e.call, tid) || ConfirmsFor(e.call, tid) || UpdatesFor(e.call, tid) ==> !Accepts(b, e)
  {
    hide BoundHere;
  }

  // ---- The largest cap ever live ----

  /** The largest maxTotalDrops that was the treasury's live cap in some state of the run. */
  function HighestCap(b: Book, es: seq<Event>, tid: nat): nat {
    var before := if es == [] then 0 else HighestCap(b, es[..|es| - 1], tid);
    var cap := CapOf(Run(b, es), tid);
    if cap > before then cap else before
  }

  lemma {:induction false} HighestCapIsHighest(b: Book, es: seq<Event>, tid: nat)
    ensures forall i :: 0 <= i <= |es| ==> CapOf(Run(b, es[..i]), tid) <= HighestCap(b, es, tid)
    ensures exists i :: 0 <= i <= |es| && CapOf(Run(b, es[..i]), tid) == HighestCap(b, es, tid)
  {
    hide Run, CapOf;
    assert es[..|es|] == es;
    if es != [] {
      var front := es[..|es| - 1];
      HighestCapIsHighest(b, front, tid);
      assert forall i :: 0 <= i <= |front| ==> front[..i] == es[..i];
    }
  }

  /** What is reserved never exceeds the largest cap that was ever live. */
  lemma {:induction false} ReservedWithinHighestCap(config: Config, es: seq<Event>, tid: nat)
    ensures ReservedOf(Run(InitialBook(config), es), tid) <= HighestCap(InitialBook(config), es, tid)
  {
    var b0 := InitialBook(config);
    if es != [] {
      var front, e := es[..|es| - 1], es[|es| - 1];
      ReservedWithinHighestCap(config, front, tid);
      InitialInv(config);
      hide Inv, After, ReservedOf, CapOf;
      RunKeepsInv(b0, front);
      BudgetEffect(Run(b0, front), e, tid);
      HighestCapIsHighest(b0, front, tid);
      assert front[..|front|] == front;
    }
  }

  // ---- The live cap ----

  ghost predicate WithinCap(b: Book, tid: nat) {
    ReservedOf(b, tid) <= CapOf(b, tid)
  }

  /** An accepted confirmation of a policy whose cap is below what is reserved. The contract does not
      look: confirmPolicy compares no cap. */
  ghost predicate ConfirmsBelowReserved(b: Book, e: Event, tid: nat) {
    Accepts(b, e) && ConfirmsFor(e.call, tid) && e.call.res.body.policy.maxTotalDrops < ReservedOf(b, tid)
  }

  lemma WithinCapStep(b: Book, e: Event, tid: nat)
    requires Inv(b) && WithinCap(b, tid)
    ensures WithinCap(After(b, e.now, e.call), tid) <==> !ConfirmsBelowReserved(b, e, tid)
  {
    hide Inv, After, Accepts, ReservedOf, CapOf, PendingOf;
    BudgetEffect(b, e, tid);
  }

  /** The live cap holds in every state of a run exactly when no confirmation undercuts what is
      reserved. */
  lemma LiveCapExactly(config: Config, es: seq<Event>, tid: nat)
    ensures (forall i :: 0 <= i <= |es| ==> WithinCap(Run(InitialBook(config), es[..i]), tid))
       <==> (forall i :: 0 <= i < |es| ==> !ConfirmsBelowReserved(Run(InitialBook(config), es[..i]), es[i], tid))
  {
    var b0 := InitialBook(config);
    InitialInv(config);
    hide *;
    if forall i :: 0 <= i < |es| ==> !ConfirmsBelowReserved(Run(b0, es[..i]), es[i], tid) {
      forall i | 0 <= i <= |es| ensures WithinCap(Run(b0, es[..i]), tid) {
        WithinCapUntil(config, es, tid, i);
      }
    }
    if forall i :: 0 <= i <= |es| ==> WithinCap(Run(b0, es[..i]), tid) {
      forall i | 0 <= i < |es| ensures !ConfirmsBelowReserved(Run(b0, es[..i]), es[i], tid) {
        RunKeepsInv(b0, es[..i]);
        RunStep(b0, es, i);
        WithinCapStep(Run(b0, es[..i]), es[i], tid);
        assert WithinCap(Run(b0, es[..i + 1]), tid);
      }
    }
  }

  lemma {:induction false} WithinCapUntil(config: Config, es: seq<Event>, tid: nat, i: nat)
    requires i <= |es| && forall k :: 0 <= k < i ==> !ConfirmsBelowReserved(Run(InitialBook(config), es[..k]), es[k], tid)
    ensures WithinCap(Run(InitialBook(config), es[..i]), tid)
  {
    InitialInv(config);
    if i > 0 {
      hide *;
      var b0 := InitialBook(config);
      WithinCapUntil(config, es, tid, i - 1);
      RunKeepsInv(b0, es[..i - 1]);
      RunStep(b0, es, i - 1);
      WithinCapStep(Run(b0, es[..i - 1]), es[i - 1], tid);
    }
  }

  /** What a policy update needs to be safe to confirm: the live cap and the pending cap both cover
      what is reserved. */
  ghost predicate Covered(b: Book, tid: nat) {
    WithinCap(b, tid) && (PendingOf(b, tid) != Zero ==> ReservedOf(b, tid) <= PendingCap(b, tid))
  }

  /** An accepted authorization that reserves past the cap of the pending policy. */
  ghost predicate Overshoots(b: Book, e: Event, tid: nat) {
    && Accepts(b, e) && AuthorizesFor(b, e.call, tid) && PendingOf(b, tid) != Zero
    && ReservedOf(b, tid) + e.call.res.body.amountDrops > PendingCap(b, tid)
  }

  lemma CoveredStep(b: Book, e: Event, tid: nat)
    requires Inv(b) && Covered(b, tid)
    ensures Covered(After(b, e.now, e.call), tid) <==> !Overshoots(b, e, tid)
  {
    hide Inv, After, Accepts, ReservedOf, CapOf, PendingOf;
    BudgetEffect(b, e, tid);
  }

  /** Live and pending caps cover the reservations in every state exactly when no authorization,
      accepted while an update is pending, passes the pending cap. */
  lemma CoveredExactly(config: Config, es: seq<Event>, tid: nat)
    ensures (forall i :: 0 <= i <= |es| ==> Covered(Run(InitialBook(config), es[..i]), tid))
       <==> (forall i :: 0 <= i < |es| ==> !Overshoots(Run(InitialBook(config), es[..i]), es[i], tid))
  {
    var b0 := InitialBook(config);
    InitialInv(config);
    hide *;
    if forall i :: 0 <= i < |es| ==> !Overshoots(Run(b0, es[..i]), es[i], tid) {
      forall i | 0 <= i <= |es| ensures Covered(Run(b0, es[..i]), tid) {
        CoveredUntil(config, es, tid, i);
      }
    }
    if forall i :: 0 <= i <= |es| ==> Covered(Run(b0, es[..i]), tid) {
      forall i | 0 <= i < |es| ensures !Overshoots(Run(b0, es[..i]), es[i], tid) {
        RunKeepsInv(b0, es[..i]);
        RunStep(b0, es, i);
        CoveredStep(Run(b0, es[..i]), es[i], tid);
        assert Covered(Run(b0, es[..i + 1]), tid);
      }
    }
  }

  lemma {:induction false} CoveredUntil(config: Config, es: seq<Event>, tid: nat, i: nat)
    requires i <= |es| && forall k :: 0 <= k < i ==> !Overshoots(Run(InitialBook(config), es[..k]), es[k], tid)
    ensures Covered(Run(InitialBook(config), es[..i]), tid)
  {
    InitialInv(config);
    if i > 0 {
      hide *;
      var b0 := InitialBook(config);
      CoveredUntil(config, es, tid, i - 1);
      RunKeepsInv(b0, es[..i - 1]);
      RunStep(b0, es, i - 1);
      CoveredStep(Run(b0, es[..i - 1]), es[i - 1], tid);
    }
  }

  /** A run that accepts no authorization for a treasury while its policy update is pending never
      reserves past the live cap, and availableDrops never underflows. */
  lemma LiveCapWhileQuiet(config: Config, es: seq<Event>, tid: nat, i: nat)
    requires forall k :: 0 <= k < |es| ==>
      var b := Run(InitialBook(config), es[..k]);
      !(Accepts(b, es[k]) && AuthorizesFor(b, es[k].call, tid) && PendingOf(b, tid) != Zero)
    requires i <= |es|
    ensures
      var b := Run(InitialBook(config), es[..i]);
      ReservedOf(b, tid) <= CapOf(b, tid) && AvailableDrops(b, tid) != Err(Panic)
  {
    hide Run, Accepts, AuthorizesFor, PendingOf, PendingCap;
    assert forall k :: 0 <= k < |es| ==> !Overshoots(Run(InitialBook(config), es[..k]), es[k], tid);
    CoveredExactly(config, es, tid);
    assert Covered(Run(InitialBook(config), es[..i]), tid);
  }

  /** In every reachable state, expiring a request succeeds exactly when it is still open and its time
      (plus the settlement grace once it is signed) is over: no release underflows, so no reservation
      is stranded. The one exception is a deadline within an hour of the end of uint64 time. */
  lemma ExpiryExactly(config: Config, es: seq<Event>, now: nat, rid: nat)
    requires rid in Run(InitialBook(config), es).requests
    ensures
      var b := Run(InitialBook(config), es);
      var r := b.requests[rid];
      var signed := r.state == SIGNED || r.state == BROADCAST;
      ExpireRequest(b, now, rid).Ok? <==>
        || ((r.state == CREATED || r.state == AUTHORIZED) && now > r.expiresAt)
        || (signed && r.expiresAt + SETTLEMENT_GRACE < LIMIT_64 && now > r.expiresAt + SETTLEMENT_GRACE)
  {
    hide Inv, Run, Release;
    InitialInv(config);
    RunKeepsInv(InitialBook(config), es);
    var b := Run(InitialBook(config), es);
    if b.requests[rid].state == CREATED || Counts(Reserving, b.requests[rid].state) {
      ReleaseNeverUnderflows(b, rid, EXPIRED);
    }
  }

  // ---- Confirmations ----

  /** How many policy updates of a treasury a run accepts. */
  function Updates(b: Book, es: seq<Event>, tid: nat): nat {
    if es == [] then 0
    else
      var front, e := es[..|es| - 1], es[|es| - 1];
      Updates(b, front, tid) + if UpdatesFor(e.call, tid) && Accepts(Run(b, front), e) then 1 else 0
  }

  /** How many confirmations it accepts. */
  function Confirmations(b: Book, es: seq<Event>, tid: nat): nat {
    if es == [] then 0
    else
      var front, e := es[..|es| - 1], es[|es| - 1];
      Confirmations(b, front, tid) + if ConfirmsFor(e.call, tid) && Accepts(Run(b, front), e) then 1 else 0
  }

  /** Confirmations never outnumber updates, and a pending update is one not yet confirmed. */
  lemma {:induction false} ConfirmationsWithinUpdates(config: Config, es: seq<Event>, tid: nat)
    ensures
      var b0 := InitialBook(config);
      Confirmations(b0, es, tid) + (if PendingOf(Run(b0, es), tid) != Zero then 1 else 0) <= Updates(b0, es, tid)
  {
    var b0 := InitialBook(config);
    if es != [] {
      var front, e := es[..|es| - 1], es[|es| - 1];
      ConfirmationsWithinUpdates(config, front, tid);
      InitialInv(config);
      hide Inv, After, Accepts, ReservedOf, CapOf, PendingOf;
      RunKeepsInv(b0, front);
      BudgetEffect(Run(b0, front), e, tid);
    }
  }

  lemma {:induction false} TreasuryStays(b: Book, es: seq<Event>, tid: nat, i: nat, j: nat)
    requires Inv(b) && i <= j <= |es| && tid in Run(b, es[..i]).treasuries
    ensures tid in Run(b, es[..j]).treasuries
  {
    hide *;
    if i < j {
      TreasuryStays(b, es, tid, i, j - 1);
      RunKeepsInv(b, es[..j - 1]);
      RunStep(b, es, j - 1);
      var b' := Run(b, es[..j - 1]);
      InvNumbered(b');
      TreasuryStaysOnce(b', es[j - 1], tid);
    }
  }

  lemma TreasuryStaysOnce(b: Book, e: Event, tid: nat)
    requires Numbered(b) && tid in b.treasuries
    ensures tid in After(b, e.now, e.call).treasuries
  {
    hide Perform, BudgetStep;
    if Perform(b, e.now, e.call).Ok? {
      TreasuryStep(b, e.now, e.call, tid);
    }
  }

  /** A confirmation accepted once is accepted again exactly when the owner has the same policy
      pending again; the threat model calls it valid exactly once. */
  lemma ConfirmationAcceptedAgainExactly(config: Config, es: seq<Event>, i: nat, j: nat)
    requires i < j < |es| && es[i].call.CallConfirmPolicy? && es[j].call == es[i].call
    requires Accepts(Run(InitialBook(config), es[..i]), es[i])
    ensures
      var body := es[i].call.res.body;
      body.Confirm?
      && (Accepts(Run(InitialBook(config), es[..j]), es[j])
          <==> PendingOf(Run(InitialBook(config), es[..j]), body.treasuryId) == PolicyCommitment(body.policy))
  {
    var b0 := InitialBook(config);
    InitialInv(config);
    hide Inv, Run;
    TreasuryStays(b0, es, es[i].call.res.body.treasuryId, i, j);
    ConfigStays(b0, es[..i]);
    ConfigStays(b0, es[..j]);
  }
}
