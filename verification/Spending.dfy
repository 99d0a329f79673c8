/** What leaves a treasury on the XRP Ledger, against its caps: every payment the enclave has signed
    and XRPL has executed, whether or not the controller ever accepted the signature. */
module Spending {
  import opened Protocol
  import opened Payments
  import opened PaymentRoundTrip
  import opened Books
  import opened BookInvariant
  import opened BookRuns
  import opened BookTerms
  import opened BudgetRuns
  import opened Settlement
  import opened EnclaveState
  import opened EnclaveRuns
  import opened World
  import opened WorldInvariant
  import opened WorldRuns
  import opened Agreement

  // ---- What XRPL can execute ----

  /** The XRP Ledger beside the protocol: its validated index at each time, and the index at which each
      executed transaction landed. */
  datatype Ledger = Ledger(validatedAt: nat -> nat, landed: map<Bytes32, nat>)

  function TxOf(g: Signature): Bytes32 {
    if g.body.SignedPayment? then g.body.expectedTxId else Zero
  }

  ghost function PaymentIn(g: Signature): PaymentData
    requires g.body.SignedPayment? && ReadBlobAsPayment(g.body.signedTxBlob).Some?
  {
    ReadBlobAsPayment(g.body.signedTxBlob).value.payment
  }

  ghost predicate Readable(g: Signature) {
    g.body.SignedPayment? && ReadBlobAsPayment(g.body.signedTxBlob).Some?
  }

  /** An executed payment landed no later than its bound allows. */
  ghost predicate LandsInTime(x: Ledger, g: Signature) {
    Readable(g) && TxOf(g) in x.landed ==> x.landed[TxOf(g)] <= PaymentIn(g).lastLedgerSequence
  }

  /** It landed after some signing of it, and by now. */
  ghost predicate LandsAfterSigning(s: State, x: Ledger, tx: Bytes32)
    requires tx in x.landed
  {
    && x.landed[tx] <= x.validatedAt(s.clock)
    && exists g :: g in s.signings && TxOf(g) == tx && x.validatedAt(g.at) < x.landed[tx]
  }

  /** An account uses each sequence once, in order. */
  ghost predicate SequencesHold(x: Ledger, g: Signature, g': Signature) {
    Readable(g) && Readable(g') && TxOf(g) in x.landed && TxOf(g') in x.landed && TxOf(g) != TxOf(g')
    && PaymentIn(g).account == PaymentIn(g').account ==>
      && PaymentIn(g).sequence != PaymentIn(g').sequence
      && (PaymentIn(g).sequence < PaymentIn(g').sequence ==> x.landed[TxOf(g)] <= x.landed[TxOf(g')])
  }

  /** What the ledger can have executed by now: only what was signed, within its bound, each sequence of
      an account once; and the enclave's readings were never ahead of it. */
  ghost predicate Executable(s: State, x: Ledger) {
    && KeepsPace(x.validatedAt) && ReadsNotAhead(s, x.validatedAt)
    && (forall tx :: tx in x.landed ==> LandsAfterSigning(s, x, tx))
    && (forall g :: g in s.signings ==> LandsInTime(x, g))
    && (forall g, g' :: g in s.signings && g' in s.signings ==> SequencesHold(x, g, g'))
  }

  // ---- Payments of a request ----

  /** The executed transactions signed for a request. */
  function ExecutedFor(signings: seq<Signature>, rid: nat, executed: set<Bytes32>): set<Bytes32> {
    set g | g in signings && g.body.SignedPayment? && g.body.requestId == rid && g.body.expectedTxId in executed :: g.body.expectedTxId
  }

  /** How often a request has been paid. */
  function PaidTimes(s: State, rid: nat, executed: set<Bytes32>): nat {
    |ExecutedFor(s.signings, rid, executed)|
  }

  /** Every signature pays exactly its request's recorded amount, from the treasury's bound account. */
  lemma SignaturePays(net: Net, config: Config, s: State, g: Signature)
    requires Wired(net, config) && Reachable(net, config, s) && g in s.signings
    ensures Readable(g) && g.body.requestId in s.system.book.requests
    ensures
      var r := s.system.book.requests[g.body.requestId];
      && PaymentIn(g).amountDrops == r.amountDrops > 0 && r.state != CREATED
      && r.treasuryId in s.vault.treasuries && PaymentIn(g).account == s.vault.treasuries[r.treasuryId].accountId
  {
    hide Reachable, Wired, WorldInv, XrplFormat.ParseObject, TermsOf, ReadBlobAsPayment, BoundedBy, EncodeMemo,
         ClassicAddress.DecodeAddress;
    ReachableInv(net, config, s);
    SignatureGood(net, s, g);
    TermsIdentity(net, s.system.book.requests[g.body.requestId], TermsOf(net, s.system.book.requests[g.body.requestId]).value);
  }

  lemma SignatureGood(net: Net, s: State, g: Signature)
    requires WorldInv(net, s) && g in s.signings
    ensures SignatureOk(net, s, g)
    ensures StageOk(s.system.book.requests[g.body.requestId], s.clock) && TermsOk(net, s.system.book.requests[g.body.requestId])
  {
    hide SystemInv, LogOk, VaultOk, JobsOk, EmissionsOk, BoundsOk, SettlementsOk, TermsOf, PaysFor, BoundedBy, StageOk, TermsOk, SignedOk;
    assert SignatureOk(net, s, g);
    assert RequestGood(net, s, g.body.requestId);
  }

  // ---- Sums ----

  /** One request's part: what was paid for it, what is reserved for it unpaid, what was paid beyond
      its reservation. */
  datatype Tally = Tally(spent: nat, idle: nat, excess: nat)

  function Part(r: Request, tid: nat, times: nat): Tally {
    if r.treasuryId != tid then Tally(0, 0, 0)
    else if !Counts(Reserving, r.state) then Tally(times * r.amountDrops, 0, times * r.amountDrops)
    else if times == 0 then Tally(0, r.amountDrops, 0)
    else Tally(times * r.amountDrops, 0, (times - 1) * r.amountDrops)
  }

  function Sum(requests: map<nat, Request>, n: nat, tid: nat, times: nat -> nat): Tally {
    if n == 0 then Tally(0, 0, 0)
    else
      var before := Sum(requests, n - 1, tid, times);
      if n !in requests then before
      else
        var p := Part(requests[n], tid, times(n));
        Tally(before.spent + p.spent, before.idle + p.idle, before.excess + p.excess)
  }

  function Tallied(s: State, tid: nat, executed: set<Bytes32>): Tally {
    Sum(s.system.book.requests, s.system.book.requestCount, tid, (rid: nat) => PaidTimes(s, rid, executed))
  }

  lemma PartBalances(r: Request, tid: nat, times: nat)
    ensures Part(r, tid, times).spent + Part(r, tid, times).idle == Share(r, tid, Reserving) + Part(r, tid, times).excess
  {
    if times > 0 {
      OneLess(times, r.amountDrops);
    }
  }

  lemma OneLess(k: nat, a: nat)
    requires k > 0
    ensures k * a == (k - 1) * a + a
  {
  }

  lemma {:induction false} SumBalances(requests: map<nat, Request>, n: nat, tid: nat, times: nat -> nat)
    ensures Sum(requests, n, tid, times).spent + Sum(requests, n, tid, times).idle
         == Total(requests, n, tid, Reserving) + Sum(requests, n, tid, times).excess
  {
    hide Part, Share;
    if n > 0 {
      SumBalances(requests, n - 1, tid, times);
      if n in requests {
        PartBalances(requests[n], tid, times(n));
      }
    }
  }

  lemma BookInvHolds(net: Net, s: State)
    requires WorldInv(net, s)
    ensures Inv(s.system.book)
  {
    hide Inv, Bijection, LogOk, VaultOk, JobsOk, SignaturesOk, EmissionsOk, BoundsOk, RequestsOk, SettlementsOk;
  }

  lemma ReservedTotal(b: Book, tid: nat)
    requires Inv(b)
    ensures ReservedOf(b, tid) == Total(b.requests, b.requestCount, tid, Reserving)
  {
    if tid in b.treasuries {
      assert Conserved(b, tid);
    } else {
      NoRequestsYet(b, tid);
      TotalOfNone(b.requests, b.requestCount, tid, Reserving);
    }
  }

  /** Spend is accounted for in every reachable state: what was paid, plus what is reserved unpaid, is
      what is reserved, plus what was paid beyond the reservations. */
  lemma SpendAccountedFor(net: Net, config: Config, s: State, tid: nat, executed: set<Bytes32>)
    requires Wired(net, config) && Reachable(net, config, s)
    ensures Tallied(s, tid, executed).spent + Tallied(s, tid, executed).idle
         == ReservedOf(s.system.book, tid) + Tallied(s, tid, executed).excess
  {
    hide Reachable, Wired, WorldInv, Inv, Sum, Total, ReservedOf;
    ReachableInv(net, config, s);
    BookInvHolds(net, s);
    ReservedTotal(s.system.book, tid);
    SumBalances(s.system.book.requests, s.system.book.requestCount, tid, (rid: nat) => PaidTimes(s, rid, executed));
  }

  /** Spend stays within what is reserved exactly when what was paid beyond the reservations is no more
      than what is reserved unpaid. */
  lemma SpentWithinReservedExactly(net: Net, config: Config, s: State, tid: nat, executed: set<Bytes32>)
    requires Wired(net, config) && Reachable(net, config, s)
    ensures Tallied(s, tid, executed).spent <= ReservedOf(s.system.book, tid)
       <==> Tallied(s, tid, executed).excess <= Tallied(s, tid, executed).idle
  {
    hide *;
    SpendAccountedFor(net, config, s, tid, executed);
  }

  // ---- When nothing is paid beyond its reservation ----

  /** The request is paid at most once, and its reservation stands if it is. */
  predicate PaidInOrder(r: Request, times: nat) {
    times <= 1 && (times == 1 ==> Counts(Reserving, r.state))
  }

  lemma PartExcess(r: Request, tid: nat, times: nat)
    requires times > 0 ==> r.amountDrops > 0
    ensures Part(r, tid, times).excess == 0 <==> (r.treasuryId == tid ==> PaidInOrder(r, times))
  {
    if times > 1 {
      ProductPositive(times - 1, r.amountDrops);
    }
    if times > 0 {
      ProductPositive(times, r.amountDrops);
    }
  }

  lemma ProductPositive(k: nat, a: nat)
    requires k > 0 && a > 0
    ensures k * a > 0
  {
  }

  lemma {:induction false} SumExcess(requests: map<nat, Request>, n: nat, tid: nat, times: nat -> nat)
    requires forall rid :: rid in requests && times(rid) > 0 ==> requests[rid].amountDrops > 0
    ensures Sum(requests, n, tid, times).excess == 0 <==>
      forall rid: nat :: 1 <= rid <= n && rid in requests && requests[rid].treasuryId == tid ==> PaidInOrder(requests[rid], times(rid))
  {
    hide Part, PaidInOrder;
    if n > 0 {
      SumExcess(requests, n - 1, tid, times);
      if n in requests {
        PartExcess(requests[n], tid, times(n));
      }
    }
  }

  lemma PaidHasAmount(net: Net, config: Config, s: State, rid: nat, executed: set<Bytes32>)
    requires Wired(net, config) && Reachable(net, config, s) && rid in s.system.book.requests && PaidTimes(s, rid, executed) > 0
    ensures s.system.book.requests[rid].amountDrops > 0
  {
    hide Reachable, Wired, Readable;
    var tx :| tx in ExecutedFor(s.signings, rid, executed);
    var g :| g in s.signings && g.body.SignedPayment? && g.body.requestId == rid && g.body.expectedTxId == tx;
    SignaturePays(net, config, s, g);
  }

  /** Nothing was paid beyond its reservation exactly when every request of the treasury was paid at
      most once, and the reservation of each paid one stands. */
  lemma NoExcessExactly(net: Net, config: Config, s: State, tid: nat, executed: set<Bytes32>)
    requires Wired(net, config) && Reachable(net, config, s)
    ensures Tallied(s, tid, executed).excess == 0 <==>
      forall rid: nat :: rid in s.system.book.requests && s.system.book.requests[rid].treasuryId == tid ==>
        PaidInOrder(s.system.book.requests[rid], PaidTimes(s, rid, executed))
  {
    hide Reachable, Wired, WorldInv, Inv, Sum, PaidInOrder, PaidTimes, Numbered;
    var times := (rid: nat) => PaidTimes(s, rid, executed);
    forall rid | rid in s.system.book.requests && times(rid) > 0 ensures s.system.book.requests[rid].amountDrops > 0 {
      PaidHasAmount(net, config, s, rid, executed);
    }
    SumExcess(s.system.book.requests, s.system.book.requestCount, tid, times);
    ReachableInv(net, config, s);
    BookInvHolds(net, s);
    InvNumbered(s.system.book);
    forall rid: nat | rid in s.system.book.requests ensures 1 <= rid <= s.system.book.requestCount {
      NumberedWithin(s.system.book, rid);
    }
  }

  // ---- Paid once ----

  ghost predicate SignedFor(g: Signature, rid: nat) {
    Readable(g) && g.body.requestId == rid
  }

  /** All signatures of a request carry one sequence. */
  ghost predicate OneSequence(s: State, rid: nat) {
    forall g, g' :: g in s.signings && g' in s.signings && SignedFor(g, rid) && SignedFor(g', rid) ==>
      PaymentIn(g).sequence == PaymentIn(g').sequence
  }

  lemma AtMostOne(a: set<Bytes32>)
    requires forall x, y :: x in a && y in a ==> x == y
    ensures |a| <= 1
  {
    if a != {} {
      var x :| x in a;
      assert a == {x};
    }
  }

  /** A request whose signatures carry one sequence is paid at most once. */
  lemma OneSequenceOnePayment(net: Net, config: Config, s: State, x: Ledger, rid: nat)
    requires Wired(net, config) && Reachable(net, config, s) && Executable(s, x) && OneSequence(s, rid)
    ensures PaidTimes(s, rid, x.landed.Keys) <= 1
  {
    hide Reachable, Wired, Readable, KeepsPace, ReadsNotAhead, LandsInTime, LandsAfterSigning;
    var paid := ExecutedFor(s.signings, rid, x.landed.Keys);
    forall tx, tx' | tx in paid && tx' in paid ensures tx == tx' {
      var g :| g in s.signings && g.body.SignedPayment? && g.body.requestId == rid && g.body.expectedTxId == tx;
      var g' :| g' in s.signings && g'.body.SignedPayment? && g'.body.requestId == rid && g'.body.expectedTxId == tx';
      SignaturePays(net, config, s, g);
      SignaturePays(net, config, s, g');
      assert SequencesHold(x, g, g');
    }
    AtMostOne(paid);
  }

  // ---- Reservations given back ----

  predicate Ended(b: Book, rid: nat) {
    rid in b.requests && Number(b.requests[rid].state) > Number(SETTLED)
  }

  /** An accepted call that ends this request: cancels it, expires it or fails it. */
  ghost predicate Ends(net: Net, s: State, e: Happening, rid: nat) {
    && World.Possible(net, s, e) && e.Chain? && EndingCall(e.call) && TouchedRequest(e.call) == rid
    && Perform(s.system.book, s.clock, e.call).Ok?
  }

  lemma EndedByCall(b: Book, now: nat, c: Call, rid: nat)
    requires Numbered(b) && rid in b.requests && Perform(b, now, c).Ok?
    ensures rid in After(b, now, c).requests
    ensures Ended(After(b, now, c), rid) <==> Ended(b, rid) || (EndingCall(c) && TouchedRequest(c) == rid)
  {
    hide After, Perform, BudgetStep, MovesReserved, SameIdentity, Numbered;
    if RequestCall(c) {
      RequestCallMoves(b, now, c);
      EndingEnds(b, now, c);
      CallTerms(b, now, c, rid);
    } else if TreasuryCall(c) {
      TreasuryCallRewrites(b, now, c);
    } else {
      OtherCallAdds(b, now, c);
    }
  }

  lemma EndingEnds(b: Book, now: nat, c: Call)
    requires Perform(b, now, c).Ok?
    ensures EndingCall(c) ==> Ended(After(b, now, c), TouchedRequest(c))
  {
    hide BoundHere, Release;
    match c
    case CallCancelRequest(_, rid) => ReleaseEnds(b, rid, CANCELLED, rid);
    case CallExpireRequest(rid) => ReleaseEnds(b, rid, EXPIRED, rid);
    case CallSubmitFailure(res) => ReleaseEnds(b, res.body.requestId, FAILED, res.body.requestId);
    case _ =>
  }

  lemma NewNotEnded(b: Book, now: nat, c: Call, rid: nat)
    requires Numbered(b) && rid !in b.requests
    ensures !Ended(After(b, now, c), rid)
    ensures EndingCall(c) && Perform(b, now, c).Ok? ==> TouchedRequest(c) != rid
  {
    hide After, Perform, Numbered, SameIdentity, MovesReserved;
    if rid in After(b, now, c).requests {
      NewRequestTerms(b, now, c, rid);
    }
    if EndingCall(c) && Perform(b, now, c).Ok? {
      RequestCallMoves(b, now, c);
    }
  }

  lemma EndedBySettling(net: Net, s: State, e: Happening, rid: nat)
    requires Numbered(s.system.book) && e.Settle?
    ensures Ended(Next(net, s, e).system.book, rid) <==> Ended(s.system.book, rid)
  {
    hide World.Possible, FinalizePayment, Numbered;
    var a := Finalize(e.verified, e.rid, e.proof);
    if World.Possible(net, s, e) {
      if Settles(net.site, s.system, a) {
        FinalizeEffect(net.site, s.system, a);
      } else {
        UnsettledStep(net.site, s.system, a);
      }
    }
  }

  lemma BookElsewhere(net: Net, s: State, e: Happening)
    requires !e.Settle? && (e.Chain? ==> !World.Possible(net, s, e) || Perform(s.system.book, s.clock, e.call).Err?)
    ensures Next(net, s, e).system.book == s.system.book
  {
    hide World.Possible, Handle, FinishSign, BeginSign, Perform;
  }

  /** A happening ends a request only by an accepted call that does so, and what has ended stays ended. */
  lemma EndedStep(net: Net, s: State, e: Happening, rid: nat)
    requires Numbered(s.system.book)
    ensures Ended(Next(net, s, e).system.book, rid) <==> Ended(s.system.book, rid) || Ends(net, s, e, rid)
  {
    hide Next, Perform, World.Possible, Numbered, Ended, After;
    if e.Settle? {
      EndedBySettling(net, s, e, rid);
    } else if e.Chain? && World.Possible(net, s, e) && Perform(s.system.book, s.clock, e.call).Ok? {
      ChainBook(net, s, e.call);
      if rid in s.system.book.requests {
        EndedByCall(s.system.book, s.clock, e.call, rid);
      } else {
        NewNotEnded(s.system.book, s.clock, e.call, rid);
        NoneEnded(s.system.book, rid);
      }
    } else {
      BookElsewhere(net, s, e);
    }
  }

  lemma NoneEnded(b: Book, rid: nat)
    requires rid !in b.requests
    ensures !Ended(b, rid)
  {
  }

  lemma ChainBook(net: Net, s: State, c: Call)
    requires World.Possible(net, s, Chain(c))
    ensures Next(net, s, Chain(c)).system.book == After(s.system.book, s.clock, c)
  {
    hide After, Authentic, Settlement.Possible;
  }

  ghost predicate EndsAt(net: Net, tr: Trace, i: nat, rid: nat) {
    i < |tr.happenings| < |tr.states| && Ends(net, tr.states[i], tr.happenings[i], rid)
  }

  /** A request has ended exactly when some accepted call of the history ended it. */
  lemma {:induction false} EndedExactly(net: Net, config: Config, tr: Trace, n: nat, rid: nat)
    requires Wired(net, config) && TraceOf(net, config, tr) && n < |tr.states|
    ensures Ended(tr.states[n].system.book, rid) <==> exists i: nat :: i < n && EndsAt(net, tr, i, rid)
  {
    hide Next, WorldInv, Wired, Ends, Inv, Numbered;
    if n > 0 {
      EndedExactly(net, config, tr, n - 1, rid);
      TraceKeepsInv(net, config, tr, n - 1);
      BookInvHolds(net, tr.states[n - 1]);
      InvNumbered(tr.states[n - 1].system.book);
      EndedStep(net, tr.states[n - 1], tr.happenings[n - 1], rid);
      assert Follows(net, tr, n - 1);
      var now := EndsAt(net, tr, n - 1, rid);
    }
  }

  lemma PrefixReachable(net: Net, config: Config, tr: Trace, n: nat)
    requires TraceOf(net, config, tr) && n < |tr.states|
    ensures Reachable(net, config, tr.states[n])
  {
    hide Next;
    var prefix := Trace(tr.states[..n + 1], tr.happenings[..n]);
    forall i: nat ensures Follows(net, prefix, i) {
      assert Follows(net, tr, i);
    }
    assert TraceOf(net, config, prefix) && Last(prefix) == tr.states[n];
  }

  /** A paid request was authorized once, so its reservation stands unless it has ended. */
  lemma PaidStands(net: Net, config: Config, s: State, rid: nat, executed: set<Bytes32>)
    requires Wired(net, config) && Reachable(net, config, s) && rid in s.system.book.requests && PaidTimes(s, rid, executed) > 0
    ensures Counts(Reserving, s.system.book.requests[rid].state) <==> !Ended(s.system.book, rid)
  {
    hide Reachable, Wired, Readable, WorldInv, Inv;
    var tx :| tx in ExecutedFor(s.signings, rid, executed);
    var g :| g in s.signings && g.body.SignedPayment? && g.body.requestId == rid && g.body.expectedTxId == tx;
    SignaturePays(net, config, s, g);
    ReachableInv(net, config, s);
    BookInvHolds(net, s);
    RequestHome(s.system.book, rid);
  }

  // ---- Spend against the caps ----

  /** The controller's events in the first n happenings of a history. */
  ghost function ControllerEvents(net: Net, tr: Trace, n: nat): seq<Event> {
    if n == 0 || n > |tr.happenings| || n > |tr.states| then []
    else ControllerEvents(net, tr, n - 1) + HappeningEvents(net, tr.states[n - 1], tr.happenings[n - 1])
  }

  ghost function HappeningEvents(net: Net, s: State, e: Happening): seq<Event> {
    if !World.Possible(net, s, e) then []
    else
      match e
      case Chain(call) => [Event(s.clock, call)]
      case Settle(verified, rid, proof) => StepEvents(net.site, s.system, Finalize(verified, rid, proof))
      case _ => []
  }

  lemma HappeningProjects(net: Net, s: State, e: Happening)
    ensures Next(net, s, e).system.book == Run(s.system.book, HappeningEvents(net, s, e)) && |HappeningEvents(net, s, e)| <= 1
  {
    hide Step, After, FinalizePayment, Handle, FinishSign, BeginSign, World.Possible, StepEvents;
    match e
    case Chain(call) =>
      StepProjects(net.site, s.system, Direct(Event(s.clock, call)));
      DirectEvents(net.site, s.system, Event(s.clock, call));
    case Settle(verified, rid, proof) =>
      StepProjects(net.site, s.system, Finalize(verified, rid, proof));
      StepEventsShort(net.site, s.system, Finalize(verified, rid, proof));
    case _ =>
  }

  lemma DirectEvents(v: Site, s: System, e: Event)
    ensures StepEvents(v, s, Direct(e)) == [e]
  {
  }

  /** For the controller a history is the run of its events. */
  lemma {:induction false} TraceProjects(net: Net, config: Config, tr: Trace, n: nat)
    requires TraceOf(net, config, tr) && n < |tr.states|
    ensures tr.states[n].system.book == Run(InitialBook(config), ControllerEvents(net, tr, n))
  {
    hide Next, HappeningEvents, After;
    if n > 0 {
      TraceProjects(net, config, tr, n - 1);
      HappeningProjects(net, tr.states[n - 1], tr.happenings[n - 1]);
      RunAppend(InitialBook(config), ControllerEvents(net, tr, n - 1), HappeningEvents(net, tr.states[n - 1], tr.happenings[n - 1]));
      assert Follows(net, tr, n - 1);
    }
  }

  /** The largest cap live so far in a history. */
  ghost function HighestLiveCap(net: Net, config: Config, tr: Trace, n: nat, tid: nat): nat {
    HighestCap(InitialBook(config), ControllerEvents(net, tr, n), tid)
  }

  lemma HighestCapAppend(b: Book, es: seq<Event>, more: seq<Event>, tid: nat)
    requires |more| <= 1
    ensures
      var cap, before := CapOf(Run(b, es + more), tid), HighestCap(b, es, tid);
      HighestCap(b, es + more, tid) == if cap > before then cap else before
  {
    hide Run, CapOf;
    if more == [] {
      assert es + more == es && es[..|es|] == es;
      HighestCapIsHighest(b, es, tid);
    } else {
      assert (es + more)[..|es|] == es;
    }
  }

  /** It is the maximum of the caps live in the states so far. */
  lemma {:induction false} HighestLiveCapIsHighest(net: Net, config: Config, tr: Trace, n: nat, tid: nat)
    requires TraceOf(net, config, tr) && n < |tr.states|
    ensures forall i: nat :: i <= n ==> CapOf(tr.states[i].system.book, tid) <= HighestLiveCap(net, config, tr, n, tid)
    ensures exists i: nat :: i <= n && CapOf(tr.states[i].system.book, tid) == HighestLiveCap(net, config, tr, n, tid)
  {
    hide Next, CapOf, Run, HighestCap, HappeningEvents, After;
    TraceProjects(net, config, tr, n);
    var here := CapOf(tr.states[n].system.book, tid);
    if n > 0 {
      HighestLiveCapIsHighest(net, config, tr, n - 1, tid);
      var e := HappeningEvents(net, tr.states[n - 1], tr.happenings[n - 1]);
      HappeningProjects(net, tr.states[n - 1], tr.happenings[n - 1]);
      HighestCapAppend(InitialBook(config), ControllerEvents(net, tr, n - 1), e, tid);
      assert HighestLiveCap(net, config, tr, n, tid) == here
          || HighestLiveCap(net, config, tr, n, tid) == HighestLiveCap(net, config, tr, n - 1, tid);
    } else {
      FirstCap(InitialBook(config), tid);
      assert HighestLiveCap(net, config, tr, 0, tid) == here;
    }
  }

  lemma FirstCap(b: Book, tid: nat)
    ensures HighestCap(b, [], tid) == CapOf(Run(b, []), tid)
  {
  }

  lemma ReservedWithinHighestLiveCap(net: Net, config: Config, tr: Trace, n: nat, tid: nat)
    requires TraceOf(net, config, tr) && n < |tr.states|
    ensures ReservedOf(tr.states[n].system.book, tid) <= HighestLiveCap(net, config, tr, n, tid)
  {
    hide *;
    TraceProjects(net, config, tr, n);
    ReservedWithinHighestCap(config, ControllerEvents(net, tr, n), tid);
    IsHighestCap(net, config, tr, n, tid);
  }

  lemma IsHighestCap(net: Net, config: Config, tr: Trace, n: nat, tid: nat)
    ensures HighestLiveCap(net, config, tr, n, tid) == HighestCap(InitialBook(config), ControllerEvents(net, tr, n), tid)
  {
  }

  /** The condition: no request of the treasury paid twice, and none ended by an accepted call though it
      was, or would be, paid. */
  ghost predicate PaidAsReserved(net: Net, tr: Trace, n: nat, tid: nat, executed: set<Bytes32>)
    requires n < |tr.states|
  {
    forall rid: nat :: rid in tr.states[n].system.book.requests && tr.states[n].system.book.requests[rid].treasuryId == tid ==>
      && PaidTimes(tr.states[n], rid, executed) <= 1
      && (PaidTimes(tr.states[n], rid, executed) == 1 ==> !EndedBefore(net, tr, n, rid))
  }

  ghost predicate EndedBefore(net: Net, tr: Trace, n: nat, rid: nat) {
    exists i: nat :: i < n && EndsAt(net, tr, i, rid)
  }

  /** Nothing is paid beyond its reservation exactly under that condition. */
  lemma PaidAsReservedExactly(net: Net, config: Config, tr: Trace, n: nat, tid: nat, executed: set<Bytes32>)
    requires Wired(net, config) && TraceOf(net, config, tr) && n < |tr.states|
    ensures Tallied(tr.states[n], tid, executed).excess == 0 <==> PaidAsReserved(net, tr, n, tid, executed)
  {
    hide Wired, Follows, Tallied, PaidTimes, EndsAt, Ended, Reachable, Counts;
    var s := tr.states[n];
    PrefixReachable(net, config, tr, n);
    NoExcessExactly(net, config, s, tid, executed);
    forall rid: nat | rid in s.system.book.requests
      ensures PaidInOrder(s.system.book.requests[rid], PaidTimes(s, rid, executed)) <==>
        PaidTimes(s, rid, executed) <= 1 && (PaidTimes(s, rid, executed) == 1 ==> !EndedBefore(net, tr, n, rid))
    {
      if PaidTimes(s, rid, executed) == 1 {
        PaidStands(net, config, s, rid, executed);
        EndedExactly(net, config, tr, n, rid);
      }
    }
  }

  /** Then everything paid from a treasury is within what it has reserved, and within the largest cap it
      ever had. */
  lemma SpentWithinCap(net: Net, config: Config, tr: Trace, n: nat, tid: nat, executed: set<Bytes32>)
    requires Wired(net, config) && TraceOf(net, config, tr) && n < |tr.states| && PaidAsReserved(net, tr, n, tid, executed)
    ensures Tallied(tr.states[n], tid, executed).spent <= ReservedOf(tr.states[n].system.book, tid)
    ensures ReservedOf(tr.states[n].system.book, tid) <= HighestLiveCap(net, config, tr, n, tid)
  {
    hide Wired, Follows, Tallied, ReservedOf, PaidAsReserved, Reachable, HighestLiveCap;
    PaidAsReservedExactly(net, config, tr, n, tid, executed);
    PrefixReachable(net, config, tr, n);
    SpendAccountedFor(net, config, tr.states[n], tid, executed);
    ReservedWithinHighestLiveCap(net, config, tr, n, tid);
  }

  /** In terms of what is signed and what is ended: when each request's signatures carry one sequence, and
      none with an executed signature is cancelled or expired, everything the ledger executes is within
      the caps. */
  lemma SpentWithinCapOnLedger(net: Net, config: Config, tr: Trace, n: nat, tid: nat, x: Ledger)
    requires Wired(net, config) && TraceOf(net, config, tr) && n < |tr.states| && Executable(tr.states[n], x)
    requires forall rid: nat :: OneSequence(tr.states[n], rid)
    requires forall rid: nat :: EndedBefore(net, tr, n, rid) ==> PaidTimes(tr.states[n], rid, x.landed.Keys) == 0
    ensures Tallied(tr.states[n], tid, x.landed.Keys).spent <= ReservedOf(tr.states[n].system.book, tid)
    ensures ReservedOf(tr.states[n].system.book, tid) <= HighestLiveCap(net, config, tr, n, tid)
  {
    hide Wired, Follows, Tallied, ReservedOf, PaidTimes, Executable, OneSequence, EndedBefore, HighestLiveCap, Reachable;
    PrefixReachable(net, config, tr, n);
    forall rid: nat ensures PaidTimes(tr.states[n], rid, x.landed.Keys) <= 1 {
      OneSequenceOnePayment(net, config, tr.states[n], x, rid);
    }
    SpentWithinCap(net, config, tr, n, tid, x.landed.Keys);
  }

  // ---- What a caller can see ----

  lemma SigningsNext(net: Net, s: State, e: Happening)
    ensures s.signings <= Next(net, s, e).signings
  {
    hide World.Possible, Handle, FinishSign, BeginSign, Step, PoliciesOf;
  }

  lemma {:induction false} SigningsAlong(net: Net, config: Config, tr: Trace, i: nat, j: nat)
    requires TraceOf(net, config, tr) && i <= j < |tr.states|
    ensures tr.states[i].signings <= tr.states[j].signings
  {
    hide Next;
    if i < j {
      SigningsAlong(net, config, tr, i, j - 1);
      SigningsNext(net, tr.states[j - 1], tr.happenings[j - 1]);
      assert Follows(net, tr, j - 1);
    }
  }

  /** A payment executed late for its proof has landed in a validated ledger by the time its request has
      expired: whoever is about to call expireRequest can look it up. */
  lemma LateProofIsVisible(net: Net, config: Config, tr: Trace, i: nat, n: nat, x: Ledger, rid: nat, blob: seq<Bytes.byte>)
    requires Wired(net, config) && TraceOf(net, config, tr) && i <= n < |tr.states| && Executable(tr.states[n], x)
    requires Accepted(tr.states[i].system.book, rid, blob) && tr.states[i].system.book.requests[rid].state == EXPIRED
    requires TransactionId(blob) in x.landed
    ensures x.landed[TransactionId(blob)] <= x.validatedAt(tr.states[i].clock)
  {
    hide Follows, Wired, WorldInv, KeepsPace, LandsAfterSigning, SequencesHold, Accepted, ReadBlobAsPayment, Reachable,
         StageOk, TermsOk, PaysFor, BoundedBy, TermsOf;
    var s := tr.states[i];
    PrefixReachable(net, config, tr, i);
    SigningsAlong(net, config, tr, i, n);
    ReachableInv(net, config, s);
    var g := SignatureBehind(net, s, rid, blob);
    SignatureReads(net, s, g);
    ExpirySafety(net, config, s, rid, blob, x.validatedAt);
    assert LandsInTime(x, g);
  }

  lemma SignatureReads(net: Net, s: State, g: Signature)
    requires SignatureOk(net, s, g)
    ensures Readable(g) && TxOf(g) == TransactionId(g.body.signedTxBlob)
  {
    hide TermsOf, BoundedBy, ReadBlobAsPayment;
  }
}
