/** The history in which real spend passes every cap: a payment is executed but its proof comes after
    the settlement grace; the request is expired, its reservation given back, and spent again. The two
    payments carry different sequences and each is alive when it lands, so the ledger can execute both. */
module LateProof {
  import Bytes
  import ClassicAddress
  import Settlement
  import Signings
  import opened Protocol
  import XrplFields
  import XrplFormat
  import opened Payments
  import opened PaymentRoundTrip
  import opened Books
  import opened BudgetRuns
  import opened EnclaveState
  import opened World
  import opened WorldInvariant
  import opened WorldRuns
  import opened Agreement
  import opened PolicyAgreement
  import opened Progress
  import opened Completion
  import opened Spending

  // ---- One payment made ----

  /** What paying leaves of a request. */
  function PaidRequest(s: State, p: Plan, blob: seq<Bytes.byte>): Request
    requires InBounds(s, p.tid)
  {
    NewRequest(s, p).(amountDrops := p.terms.amountDrops, destinationHash := HashText(p.terms.destination),
                      expectedTxId := TransactionId(blob), signedBlobHash := HashData(blob), state := SIGNED)
  }

  function PaidTreasury(s: State, p: Plan): Books.Treasury
    requires InBounds(s, p.tid)
  {
    var t := s.system.book.treasuries[p.tid];
    t.(nextNonce := t.nextNonce + 1, reservedDrops := t.reservedDrops + p.terms.amountDrops)
  }

  /** The log has grown by instructions that carry no policy. */
  predicate NoNewPolicy(log: seq<Instruction>, log': seq<Instruction>) {
    log <= log' && forall i :: |log| <= i < |log'| ==> !log'[i].command.CreateTreasuryKey? && !log'[i].command.RegisterPolicy?
  }

  /** The signature of a payment made in this state under a reading. */
  ghost predicate SignedIn(s: State, p: Plan, x: Progress.Reading, g: Signature)
    requires InBounds(s, p.tid)
  {
    && p.tid in s.vault.treasuries && g.body.SignedPayment? && g.body.requestId == p.rid
    && g.body.expectedTxId == TransactionId(g.body.signedTxBlob) && g.at == s.clock && g.ledger == x.ledger
    && Exact(g.body.signedTxBlob)
    && var payment := ReadBlobAsPayment(g.body.signedTxBlob).value.payment;
       && payment.account == s.vault.treasuries[p.tid].accountId && payment.sequence == x.sequence
       && payment.lastLedgerSequence == LastLedger(x.ledger, NewRequest(s, p).expiresAt, s.clock)
  }

  ghost predicate Paid(s: State, s': State, p: Plan, blob: seq<Bytes.byte>)
    requires InBounds(s, p.tid)
  {
    var b, b' := s.system.book, s'.system.book;
    && b'.config == b.config && b'.paused == b.paused && b'.requestCount == p.rid
    && b'.requests == b.requests[p.rid := PaidRequest(s, p, blob)]
    && b'.treasuries == b.treasuries[p.tid := PaidTreasury(s, p)]
    && NoNewPolicy(b.sent, b'.sent)
    && s'.clock == s.clock && s'.vault.treasuries == s.vault.treasuries
  }

  lemma PaidBook(net: Net, s: State, p: Plan, blob: seq<Bytes.byte>, s1: State, s2: State)
    requires Ready(net, s, p)
    requires s1.system == SetBook(s, ReservedBook(s, p)).system
    requires s1.vault.treasuries == s.vault.treasuries && s1.clock == s.clock
    requires p.rid in s1.system.book.requests && s1.system.book.requests[p.rid].treasuryId in s1.system.book.treasuries
    requires s2.system == SetBook(s1, SignedBook(SentBook(s1, p.rid), p.rid, blob)).system
    requires s2.vault.treasuries == s1.vault.treasuries && s2.clock == s1.clock
    ensures Paid(s, s2, p, blob)
  {
    hide Allowed, Running;
  }

  lemma PaysOnce(net: Net, config: Config, tr: Trace, p: Plan, x: Progress.Reading) returns (tr': Trace, g: Signature)
    requires TraceOf(net, config, tr) && Ready(net, Last(tr), p) && Sane(x)
    ensures TraceOf(net, config, tr') && InBounds(Last(tr), p.tid) && SignedIn(Last(tr), p, x, g)
    ensures Paid(Last(tr), Last(tr'), p, g.body.signedTxBlob)
    ensures Last(tr').signings == Last(tr).signings + [g]
  {
    hide Follows, Ready, GrantTotal, SigningTotal, Sane, Paid, SignedBook, ReservedBook, SignedUnder, SignedIn, InBounds, AskHeader,
         GrantedFor;
    var s := Last(tr);
    ReadyInBounds(net, s, p);
    var tr1 := Authorizes(net, config, tr, p);
    var blob;
    tr', blob := SignsPayment(net, config, tr1, p.rid, x);
    PaidBook(net, s, p, blob, Last(tr1), Last(tr'));
    g := Signature(SignedBody(SignInstruction(Last(tr1), p.rid).header, blob), Last(tr1).clock, x.ledger);
    SignedHere(net, s, p, x, Last(tr1), blob);
  }

  lemma SignedHere(net: Net, s: State, p: Plan, x: Progress.Reading, s1: State, blob: seq<Bytes.byte>)
    requires Ready(net, s, p)
    requires s1.system == SetBook(s, ReservedBook(s, p)).system && s1.clock == s.clock
    requires s1.vault == s.vault.(authorizations := s.vault.authorizations[p.rid := GrantedFor(AskHeader(s, p), p)])
    requires p.rid in s1.system.book.requests && s1.system.book.requests[p.rid].treasuryId in s1.system.book.treasuries
    requires p.rid in s1.vault.authorizations && s1.vault.authorizations[p.rid].treasuryId in s1.vault.treasuries
    requires SignedUnder(blob, JobFor(SetBook(s1, SentBook(s1, p.rid)), |s1.system.book.sent|, p.rid), x, s1.clock)
    ensures SignedIn(s, p, x, Signature(SignedBody(SignInstruction(s1, p.rid).header, blob), s1.clock, x.ledger))
  {
    hide ClassicAddress.DecodeAddress, ReadBlobAsPayment, LastLedger, XrplFormat.ParseObject, FieldsOf;
  }

  // ---- The proof comes too late ----

  /** Enough time for the grace to pass. */
  function GraceOver(s: State, tid: nat): nat
    requires tid in s.system.book.treasuries
  {
    s.system.book.treasuries[tid].policy.requestTtlSeconds + SETTLEMENT_GRACE + 1
  }

  /** The state after the request has been expired: its reservation is back, its blob still executed. */
  ghost predicate Expired(s: State, s': State, p: Plan, blob: seq<Bytes.byte>)
    requires InBounds(s, p.tid)
  {
    var b, b' := s.system.book, s'.system.book;
    && b'.config == b.config && b'.paused == b.paused && b'.requestCount == p.rid
    && b'.requests == b.requests[p.rid := PaidRequest(s, p, blob).(state := EXPIRED)]
    && b'.treasuries == b.treasuries[p.tid := b.treasuries[p.tid].(nextNonce := b.treasuries[p.tid].nextNonce + 1)]
    && NoNewPolicy(b.sent, b'.sent)
    && s'.clock == s.clock + GraceOver(s, p.tid) && s'.vault.treasuries == s.vault.treasuries
  }

  lemma PaidReleases(s: State, s1: State, p: Plan, blob: seq<Bytes.byte>)
    requires InBounds(s, p.tid) && Paid(s, s1, p, blob)
    ensures p.rid in s1.system.book.requests && s1.system.book.requests[p.rid] == PaidRequest(s, p, blob)
    ensures Release(s1.system.book, p.rid, EXPIRED).Ok?
    ensures
      var b, b' := s.system.book, Release(s1.system.book, p.rid, EXPIRED).value;
      && b'.config == b.config && b'.paused == b.paused && b'.requestCount == p.rid && NoNewPolicy(b.sent, b'.sent)
      && b'.requests == b.requests[p.rid := PaidRequest(s, p, blob).(state := EXPIRED)]
      && b'.treasuries == b.treasuries[p.tid := b.treasuries[p.tid].(nextNonce := b.treasuries[p.tid].nextNonce + 1)]
  {
    var b := s1.system.book;
    assert b.requests[p.rid] == PaidRequest(s, p, blob) && b.treasuries[p.tid] == PaidTreasury(s, p);
    hide NoNewPolicy;
  }

  lemma ExpiresPaid(net: Net, s: State, s1: State, s2: State, p: Plan, blob: seq<Bytes.byte>)
    requires InBounds(s, p.tid) && Paid(s, s1, p, blob) && s2 == s1.(clock := s1.clock + GraceOver(s, p.tid))
    requires NewRequest(s, p).expiresAt + SETTLEMENT_GRACE < LIMIT_64
    ensures Expired(s, Next(net, s2, Chain(CallExpireRequest(p.rid))), p, blob)
  {
    hide Next, Release, NoNewPolicy;
    PaidReleases(s, s1, p, blob);
    Expires(net, s2, p.rid);
  }

  lemma PaysAndExpires(net: Net, config: Config, tr: Trace, p: Plan, x: Progress.Reading) returns (tr': Trace, g: Signature)
    requires TraceOf(net, config, tr) && Ready(net, Last(tr), p) && Sane(x)
    requires InBounds(Last(tr), p.tid) && NewRequest(Last(tr), p).expiresAt + SETTLEMENT_GRACE < LIMIT_64
    ensures TraceOf(net, config, tr') && SignedIn(Last(tr), p, x, g) && Expired(Last(tr), Last(tr'), p, g.body.signedTxBlob)
    ensures Last(tr').signings == Last(tr).signings + [g]
  {
    hide Follows, Ready, GrantTotal, SigningTotal, Sane, Paid, Next, Expired, SignedIn, Signings.GrantsNow, Signings.SignsNow,
         NewRequest;
    ReadyInBounds(net, Last(tr), p);
    var tr1;
    tr1, g := PaysOnce(net, config, tr, p, x);
    var seconds := GraceOver(Last(tr), p.tid);
    TimePasses(net, Last(tr1), seconds);
    var tr2 := Step(net, config, tr1, Tick(seconds), p.rid);
    SignedNamed(Last(tr), p, x, g);
    ExpiresPaid(net, Last(tr), Last(tr1), Last(tr2), p, g.body.signedTxBlob);
    ChainSignings(net, Last(tr2), CallExpireRequest(p.rid));
    tr' := Step(net, config, tr2, Chain(CallExpireRequest(p.rid)), p.rid);
  }

  lemma ChainSignings(net: Net, s: State, c: Call)
    ensures Next(net, s, Chain(c)).signings == s.signings
  {
    hide World.Possible;
  }

  // ---- Paid again ----

  /** A second payment of the same treasury can be asked for once the first has expired. */
  ghost predicate Follower(net: Net, s: State, p: Plan, q: Plan)
    requires InBounds(s, p.tid)
  {
    && q.tid == p.tid && q.rid == p.rid + 1 && Allowed(net, s, q)
    && s.system.book.requestCount + 2 < LIMIT_256 && s.system.book.treasuries[p.tid].nextNonce + 2 < LIMIT_64
    && s.clock + GraceOver(s, p.tid) + s.system.book.treasuries[p.tid].policy.requestTtlSeconds < LIMIT_64
    && NewRequest(s, p).expiresAt + SETTLEMENT_GRACE < LIMIT_64
  }

  lemma ExpiredIsReady(net: Net, s: State, s': State, p: Plan, q: Plan, blob: seq<Bytes.byte>)
    requires Ready(net, s, p) && Follower(net, s, p, q) && Expired(s, s', p, blob)
    ensures Ready(net, s', q)
  {
    hide ClassicAddress.DecodeAddress;
  }

  lemma SumIncludes(requests: map<nat, Request>, n: nat, tid: nat, times: nat -> nat)
    requires n >= 2 && n in requests && n - 1 in requests
    ensures Sum(requests, n, tid, times).spent >= Part(requests[n - 1], tid, times(n - 1)).spent + Part(requests[n], tid, times(n)).spent
  {
    hide Part;
    assert Sum(requests, n - 1, tid, times).spent >= Part(requests[n - 1], tid, times(n - 1)).spent;
  }

  lemma PaidPart(r: Request, tid: nat, times: nat)
    requires r.treasuryId == tid && times >= 1
    ensures Part(r, tid, times).spent >= r.amountDrops
  {
    OneLess(times, r.amountDrops);
  }

  lemma PaidAtLeastOnce(s: State, g: Signature, executed: set<Bytes32>)
    requires g in s.signings && g.body.SignedPayment? && g.body.expectedTxId in executed
    ensures PaidTimes(s, g.body.requestId, executed) >= 1
  {
    assert g.body.expectedTxId in ExecutedFor(s.signings, g.body.requestId, executed);
  }

  /** Both payments are spent. */
  lemma SpentTwice(s: State, s1: State, s2: State, p: Plan, q: Plan, g: Signature, g': Signature, executed: set<Bytes32>)
    requires g.body.SignedPayment? && g'.body.SignedPayment?
    requires InBounds(s, p.tid) && Expired(s, s1, p, g.body.signedTxBlob)
    requires InBounds(s1, q.tid) && Paid(s1, s2, q, g'.body.signedTxBlob)
    requires q.tid == p.tid && p.rid >= 1 && q.rid == p.rid + 1
    requires g in s2.signings && g' in s2.signings && g.body.requestId == p.rid && g'.body.requestId == q.rid
    requires TxOf(g) in executed && TxOf(g') in executed
    ensures Tallied(s2, p.tid, executed).spent >= p.terms.amountDrops + q.terms.amountDrops
  {
    var b := s2.system.book;
    var times := (rid: nat) => PaidTimes(s2, rid, executed);
    assert b.requests[p.rid].amountDrops == p.terms.amountDrops && b.requests[p.rid].treasuryId == p.tid;
    assert b.requests[q.rid].amountDrops == q.terms.amountDrops && b.requests[q.rid].treasuryId == p.tid;
    hide PaidTimes, Part, Sum;
    PaidAtLeastOnce(s2, g, executed);
    PaidAtLeastOnce(s2, g', executed);
    PaidPart(b.requests[p.rid], p.tid, times(p.rid));
    PaidPart(b.requests[q.rid], p.tid, times(q.rid));
    SumIncludes(b.requests, q.rid, p.tid, times);
  }

  // ---- The ledger can execute both ----

  /** The ledger's course: at an even pace, never behind what the enclave read. */
  ghost predicate Carries(s: State, validatedAt: nat -> nat) {
    KeepsPace(validatedAt) && ReadsNotAhead(s, validatedAt)
  }

  /** A reading made now that leaves its payment alive. */
  ghost predicate Alive(s: State, p: Plan, x: Progress.Reading, validatedAt: nat -> nat)
    requires InBounds(s, p.tid)
  {
    && x.ledger <= validatedAt(s.clock) < LastLedger(x.ledger, NewRequest(s, p).expiresAt, s.clock)
  }

  /** Both payments land in the ledger after the one validated when they are signed. */
  ghost function BothLand(g: Signature, g': Signature, validatedAt: nat -> nat): Ledger {
    Ledger(validatedAt, map[TxOf(g) := validatedAt(g.at) + 1, TxOf(g') := validatedAt(g'.at) + 1])
  }

  lemma PaceHolds(validatedAt: nat -> nat, t: nat, t': nat)
    requires KeepsPace(validatedAt) && t <= t'
    ensures validatedAt(t) <= validatedAt(t') && (t + 9 <= t' ==> validatedAt(t) + 1 <= validatedAt(t'))
  {
    assert TimeFor(t, t', 0);
    if t + 9 <= t' {
      assert TimeFor(t, t', 1);
    }
  }

  /** Signatures of one transaction carry one payment. */
  lemma SameTxSamePayment(g: Signature, h: Signature)
    requires Readable(g) && Readable(h) && TxOf(g) == TransactionId(g.body.signedTxBlob) && TxOf(h) == TransactionId(h.body.signedTxBlob)
    requires TxOf(g) == TxOf(h)
    ensures PaymentIn(g) == PaymentIn(h)
  {
    hide ReadBlobAsPayment;
    assert (XrplFields.PREFIX_TRANSACTION_ID + g.body.signedTxBlob)[4..] == g.body.signedTxBlob;
    assert (XrplFields.PREFIX_TRANSACTION_ID + h.body.signedTxBlob)[4..] == h.body.signedTxBlob;
  }

  /** What is needed of the two signatures. */
  ghost predicate BothGood(s: State, g: Signature, g': Signature, validatedAt: nat -> nat) {
    && g in s.signings && g' in s.signings && Readable(g) && Readable(g')
    && TxOf(g) == TransactionId(g.body.signedTxBlob) && TxOf(g') == TransactionId(g'.body.signedTxBlob)
    && g.at <= g'.at && g'.at + 9 <= s.clock && PaymentIn(g).sequence < PaymentIn(g').sequence
    && validatedAt(g.at) < PaymentIn(g).lastLedgerSequence && validatedAt(g'.at) < PaymentIn(g').lastLedgerSequence
  }

  ghost predicate AllGood(s: State) {
    forall g :: g in s.signings ==> Readable(g) && TxOf(g) == TransactionId(g.body.signedTxBlob)
  }

  lemma ReachableAllGood(net: Net, config: Config, s: State)
    requires Wired(net, config) && Reachable(net, config, s)
    ensures AllGood(s)
  {
    hide Reachable, Wired, WorldInv, SignatureOk, ReadBlobAsPayment, TxOf, StageOk, TermsOk;
    ReachableInv(net, config, s);
    forall g | g in s.signings ensures Readable(g) && TxOf(g) == TransactionId(g.body.signedTxBlob) {
      SignatureGood(net, s, g);
      SignatureReads(net, s, g);
    }
  }

  lemma BothExecutable(s: State, g: Signature, g': Signature, validatedAt: nat -> nat)
    requires Carries(s, validatedAt) && AllGood(s) && BothGood(s, g, g', validatedAt)
    ensures Executable(s, BothLand(g, g', validatedAt))
  {
    hide Readable, PaymentIn, TxOf, KeepsPace, ReadsNotAhead;
    var x := BothLand(g, g', validatedAt);
    PaceHolds(validatedAt, g.at, g'.at);
    PaceHolds(validatedAt, g.at, s.clock);
    PaceHolds(validatedAt, g'.at, s.clock);
    DifferentTx(g, g');
    forall h | h in s.signings ensures LandsInTime(x, h) {
      LandsAs(s, g, g', h);
    }
    forall h, h' | h in s.signings && h' in s.signings ensures SequencesHold(x, h, h') {
      LandsAs(s, g, g', h);
      LandsAs(s, g, g', h');
    }
  }

  lemma DifferentTx(g: Signature, g': Signature)
    requires Readable(g) && Readable(g') && PaymentIn(g).sequence != PaymentIn(g').sequence
    requires TxOf(g) == TransactionId(g.body.signedTxBlob) && TxOf(g') == TransactionId(g'.body.signedTxBlob)
    ensures TxOf(g) != TxOf(g')
  {
    hide Readable, PaymentIn, TxOf;
    if TxOf(g) == TxOf(g') {
      SameTxSamePayment(g, g');
    }
  }

  lemma LandsAs(s: State, g: Signature, g': Signature, h: Signature)
    requires AllGood(s) && g in s.signings && g' in s.signings && h in s.signings
    ensures Readable(g) && Readable(g') && Readable(h)
    ensures TxOf(h) == TxOf(g) ==> PaymentIn(h) == PaymentIn(g)
    ensures TxOf(h) == TxOf(g') ==> PaymentIn(h) == PaymentIn(g')
  {
    hide Readable, PaymentIn, TxOf;
    if TxOf(h) == TxOf(g) {
      SameTxSamePayment(h, g);
    }
    if TxOf(h) == TxOf(g') {
      SameTxSamePayment(h, g');
    }
  }

  // ---- No cap was ever larger ----

  ghost predicate OnlyPolicy(log: seq<Instruction>, tid: nat, policy: Policy) {
    forall i :: i in log && CarriedPolicy(i, tid).Some? ==> CarriedPolicy(i, tid).value == policy
  }

  lemma SentNext(net: Net, s: State, e: Happening)
    ensures s.system.book.sent <= Next(net, s, e).system.book.sent
  {
    hide World.Possible, Handle, FinishSign, BeginSign, After, Settlement.FinalizePayment;
    if World.Possible(net, s, e) {
      match e
      case Chain(call) => SentGrows(s.system.book, s.clock, call);
      case Settle(verified, rid, proof) => SettleSends(net, s, Settlement.Finalize(verified, rid, proof));
      case _ =>
    }
  }

  lemma SettleSends(net: Net, s: State, a: Settlement.Action)
    requires a.Finalize?
    ensures Settlement.Step(net.site, s.system, a).book.sent == s.system.book.sent
  {
    hide Settlement.CheckAgainstRequest;
  }

  lemma {:induction false} SentAlong(net: Net, config: Config, tr: Trace, i: nat, j: nat)
    requires TraceOf(net, config, tr) && i <= j < |tr.states|
    ensures tr.states[i].system.book.sent <= tr.states[j].system.book.sent
  {
    hide Next;
    if i < j {
      SentAlong(net, config, tr, i, j - 1);
      SentNext(net, tr.states[j - 1], tr.happenings[j - 1]);
      assert Follows(net, tr, j - 1);
    }
  }

  /** Every cap a treasury ever had comes from a policy in the log. */
  lemma CapsFromLog(net: Net, config: Config, tr: Trace, i: nat, tid: nat, policy: Policy)
    requires Wired(net, config) && TraceOf(net, config, tr) && i < |tr.states|
    requires OnlyPolicy(Last(tr).system.book.sent, tid, policy)
    ensures CapOf(tr.states[i].system.book, tid) <= policy.maxTotalDrops
  {
    hide Follows, Wired, Held, ToldTruly, AdoptedFirst, LastSent, CarriedPolicy;
    TraceKeepsPolicies(net, config, tr, i);
    SentAlong(net, config, tr, i, |tr.states| - 1);
    var b := tr.states[i].system.book;
    if tid in b.treasuries {
      assert PolicyLogged(b, tid);
      var sent :| sent in b.sent && PolicyAgreement.AsksFor(sent, tid, b.treasuries[tid].policy, b.treasuries[tid].owner);
      assert sent in Last(tr).system.book.sent;
    }
  }

  lemma HighestCapFromLog(net: Net, config: Config, tr: Trace, tid: nat, policy: Policy)
    requires Wired(net, config) && TraceOf(net, config, tr) && OnlyPolicy(Last(tr).system.book.sent, tid, policy)
    ensures HighestLiveCap(net, config, tr, |tr.states| - 1, tid) <= policy.maxTotalDrops
  {
    hide Follows, Wired, OnlyPolicy, CapOf, HighestLiveCap;
    HighestLiveCapIsHighest(net, config, tr, |tr.states| - 1, tid);
    var i: nat :| i <= |tr.states| - 1 && CapOf(tr.states[i].system.book, tid) == HighestLiveCap(net, config, tr, |tr.states| - 1, tid);
    CapsFromLog(net, config, tr, i, tid, policy);
  }

  lemma OnlyPolicyKept(log: seq<Instruction>, log': seq<Instruction>, tid: nat, policy: Policy)
    requires OnlyPolicy(log, tid, policy) && NoNewPolicy(log, log')
    ensures OnlyPolicy(log', tid, policy)
  {
    forall i | i in log' && CarriedPolicy(i, tid).Some? ensures CarriedPolicy(i, tid).value == policy {
      var k :| 0 <= k < |log'| && log'[k] == i;
      if k < |log| {
        assert log[k] == i;
      }
    }
  }

  /** The state in which the second payment is asked for. */
  ghost predicate SecondAlive(s: State, p: Plan, q: Plan, y: Progress.Reading, validatedAt: nat -> nat)
    requires InBounds(s, p.tid)
  {
    var clock, ttl := s.clock + GraceOver(s, p.tid), s.system.book.treasuries[p.tid].policy.requestTtlSeconds;
    clock + ttl < LIMIT_64 && y.ledger <= validatedAt(clock) < LastLedger(y.ledger, clock + ttl, clock)
  }

  lemma StillAlive(s: State, s1: State, p: Plan, q: Plan, y: Progress.Reading, validatedAt: nat -> nat, blob: seq<Bytes.byte>)
    requires InBounds(s, p.tid) && SecondAlive(s, p, q, y, validatedAt) && Expired(s, s1, p, blob)
    requires q.tid == p.tid && InBounds(s1, q.tid)
    ensures Alive(s1, q, y, validatedAt)
  {
  }

  /** A history in which more is paid from a treasury than the largest cap it ever had, on a ledger that
      can execute all of it: the first payment's proof is late, the request is expired, and a second
      payment is made under the next sequence. */
  lemma LateProofOverspends(net: Net, config: Config, tr: Trace, p: Plan, q: Plan, x: Progress.Reading, y: Progress.Reading,
                            validatedAt: nat -> nat)
    returns (tr': Trace, ledger: Ledger)
    requires Wired(net, config) && TraceOf(net, config, tr) && Ready(net, Last(tr), p) && Sane(x) && Sane(y) && p.rid >= 1
    requires InBounds(Last(tr), p.tid) && Follower(net, Last(tr), p, q)
    requires OnlyPolicy(Last(tr).system.book.sent, p.tid, Last(tr).system.book.treasuries[p.tid].policy)
    requires p.terms.amountDrops + q.terms.amountDrops > Last(tr).system.book.treasuries[p.tid].policy.maxTotalDrops
    requires x.sequence < y.sequence && Carries(Last(tr), validatedAt)
    requires Alive(Last(tr), p, x, validatedAt) && SecondAlive(Last(tr), p, q, y, validatedAt)
    ensures TraceOf(net, config, tr') && Executable(Last(tr'), ledger)
    ensures Tallied(Last(tr'), p.tid, ledger.landed.Keys).spent >= p.terms.amountDrops + q.terms.amountDrops
    ensures HighestLiveCap(net, config, tr', |tr'.states| - 1, p.tid) <= Last(tr).system.book.treasuries[p.tid].policy.maxTotalDrops
  {
    var s, policy := Last(tr), Last(tr).system.book.treasuries[p.tid].policy;
    hide Follows, Wired, Ready, Sane, Paid, Expired, Allowed, Tallied, HighestLiveCap, OnlyPolicy, NoNewPolicy, SignedIn, Alive,
         SecondAlive, Carries, Executable, Next, Signings.GrantsNow, Signings.SignsNow, Reachable, TxOf, AllGood, BothGood;
    var tr1, g := PaysAndExpires(net, config, tr, p, x);
    var s1 := Last(tr1);
    ExpiredIsReady(net, s, s1, p, q, g.body.signedTxBlob);
    ReadyInBounds(net, s1, q);
    StillAlive(s, s1, p, q, y, validatedAt, g.body.signedTxBlob);
    var tr2, g' := PaysOnce(net, config, tr1, q, y);
    TimePasses(net, Last(tr2), 9);
    tr' := Step(net, config, tr2, Tick(9), p.rid);
    ledger := BothLand(g, g', validatedAt);
    ClocksOf(s, s1, Last(tr2), p, q, g.body.signedTxBlob, g'.body.signedTxBlob);
    LastReachable(net, config, tr');
    Lands(net, config, s, s1, Last(tr'), p, q, x, y, g, g', validatedAt);
    SignedNamed(s, p, x, g);
    SignedNamed(s1, q, y, g');
    SpentTwice(s, s1, Last(tr2), p, q, g, g', ledger.landed.Keys);
    TalliedLater(Last(tr2), Last(tr'), p.tid, ledger.landed.Keys);
    PoliciesKept(s, s1, Last(tr2), p, q, g.body.signedTxBlob, g'.body.signedTxBlob, policy);
    HighestCapFromLog(net, config, tr', p.tid, policy);
  }

  lemma SignedNamed(s: State, p: Plan, x: Progress.Reading, g: Signature)
    requires InBounds(s, p.tid) && SignedIn(s, p, x, g)
    ensures g.body.SignedPayment? && g.body.requestId == p.rid
  {
    hide XrplFormat.ParseObject, FieldsOf, ReadBlobAsPayment, LastLedger;
  }

  lemma TalliedLater(s: State, s': State, tid: nat, executed: set<Bytes32>)
    requires s' == s.(clock := s'.clock)
    ensures Tallied(s', tid, executed) == Tallied(s, tid, executed)
  {
    hide Sum;
    SumSame(s.system.book.requests, s.system.book.requestCount, tid,
            (rid: nat) => PaidTimes(s, rid, executed), (rid: nat) => PaidTimes(s', rid, executed));
  }

  /** The two signatures, when the second payment has been made. */
  ghost predicate TwoSigned(s: State, s1: State, s2: State, p: Plan, q: Plan, x: Progress.Reading, y: Progress.Reading,
                            g: Signature, g': Signature)
    requires InBounds(s, p.tid) && InBounds(s1, q.tid)
  {
    && SignedIn(s, p, x, g) && SignedIn(s1, q, y, g') && s1.clock == s.clock + GraceOver(s, p.tid) && s2.clock == s1.clock + 9
    && s2.signings == s.signings + [g] + [g'] && x.sequence < y.sequence
  }

  lemma TwoAreGood(s: State, s1: State, s2: State, p: Plan, q: Plan, x: Progress.Reading, y: Progress.Reading,
                   g: Signature, g': Signature, validatedAt: nat -> nat)
    requires InBounds(s, p.tid) && InBounds(s1, q.tid) && TwoSigned(s, s1, s2, p, q, x, y, g, g')
    requires Carries(s, validatedAt) && Alive(s, p, x, validatedAt) && Alive(s1, q, y, validatedAt)
    ensures BothGood(s2, g, g', validatedAt) && Carries(s2, validatedAt)
  {
    hide KeepsPace, XrplFormat.ParseObject, FieldsOf, ReadBlobAsPayment, LastLedger;
  }

  /** The ledger can execute both. */
  lemma Lands(net: Net, config: Config, s: State, s1: State, s2: State, p: Plan, q: Plan, x: Progress.Reading, y: Progress.Reading,
              g: Signature, g': Signature, validatedAt: nat -> nat)
    requires Wired(net, config) && Reachable(net, config, s2)
    requires InBounds(s, p.tid) && InBounds(s1, q.tid) && TwoSigned(s, s1, s2, p, q, x, y, g, g')
    requires Carries(s, validatedAt) && Alive(s, p, x, validatedAt) && Alive(s1, q, y, validatedAt)
    ensures Executable(s2, BothLand(g, g', validatedAt))
  {
    hide *;
    TwoAreGood(s, s1, s2, p, q, x, y, g, g', validatedAt);
    ReachableAllGood(net, config, s2);
    BothExecutable(s2, g, g', validatedAt);
  }

  lemma ClocksOf(s: State, s1: State, s2: State, p: Plan, q: Plan, first: seq<Bytes.byte>, second: seq<Bytes.byte>)
    requires InBounds(s, p.tid) && Expired(s, s1, p, first) && InBounds(s1, q.tid) && Paid(s1, s2, q, second)
    ensures s1.clock == s.clock + GraceOver(s, p.tid) && s2.clock == s1.clock
  {
  }

  lemma {:induction false} SumSame(requests: map<nat, Request>, n: nat, tid: nat, times: nat -> nat, times': nat -> nat)
    requires forall rid: nat :: times(rid) == times'(rid)
    ensures Sum(requests, n, tid, times) == Sum(requests, n, tid, times')
  {
    if n > 0 {
      SumSame(requests, n - 1, tid, times, times');
    }
  }

  lemma PoliciesKept(s: State, s1: State, s2: State, p: Plan, q: Plan, first: seq<Bytes.byte>, second: seq<Bytes.byte>, policy: Policy)
    requires InBounds(s, p.tid) && Expired(s, s1, p, first) && InBounds(s1, q.tid) && Paid(s1, s2, q, second)
    requires OnlyPolicy(s.system.book.sent, p.tid, policy)
    ensures OnlyPolicy(s2.system.book.sent, p.tid, policy)
  {
    hide OnlyPolicy, PaidRequest, PaidTreasury;
    OnlyPolicyKept(s.system.book.sent, s1.system.book.sent, p.tid, policy);
    OnlyPolicyKept(s1.system.book.sent, s2.system.book.sent, p.tid, policy);
  }
}
