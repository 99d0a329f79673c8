/** Where what the controller's storage says comes from, over whole runs: who paused it, who opened
    each request, which result set its terms, and what each instruction was sent for. */
module ControllerHistory {
  import opened Wrappers
  import opened Bytes
  import opened Protocol
  import opened Books
  import opened BookInvariant
  import opened BookRuns
  import opened BudgetRuns
  import opened BookTerms
  import opened ControllerRules
  import opened ControllerEffects

  // ---- Pausing ----

  /** What the contract's owner last set; open at deployment. */
  function PauseSetting(config: Config, es: seq<Event>): bool {
    if es == [] then false
    else
      var c := es[|es| - 1].call;
      if c.CallSetPaused? && c.sender == config.owner then c.flag else PauseSetting(config, es[..|es| - 1])
  }

  lemma PauseStep(b: Book, e: Event)
    requires Numbered(b)
    ensures After(b, e.now, e.call).paused
         == if e.call.CallSetPaused? && e.call.sender == b.config.owner then e.call.flag else b.paused
  {
    RejectedChangesNothing(b, e);
    if e.call.CallSetPaused? {
      PauseAccepted(b, e);
    }
    hide Perform, After;
    if Accepts(b, e) {
      FlagWritten(b, e.now, e.call);
    }
  }

  lemma PauseAccepted(b: Book, e: Event)
    requires e.call.CallSetPaused?
    ensures Accepts(b, e) <==> e.call.sender == b.config.owner
  {
  }

  lemma RejectedChangesNothing(b: Book, e: Event)
    ensures !Accepts(b, e) ==> After(b, e.now, e.call) == b
  {
    hide Perform;
  }

  /** The facts every proof below starts from. */
  lemma Reached(config: Config, es: seq<Event>)
    ensures var b := Run(InitialBook(config), es); Inv(b) && Numbered(b) && b.config == config
  {
    InitialInv(config);
    hide *;
    RunKeepsInv(InitialBook(config), es);
    ConfigStays(InitialBook(config), es);
    InvNumbered(Run(InitialBook(config), es));
    assert InitialBook(config).config == config by {
      hide *;
      InitialConfig(config);
    }
  }

  lemma InitialConfig(config: Config)
    ensures InitialBook(config).config == config
  {
  }

  /** The flag is what the owner last set, in every state of every run. */
  lemma {:induction false} PausedExactly(config: Config, es: seq<Event>)
    ensures Run(InitialBook(config), es).paused == PauseSetting(config, es)
  {
    hide After, Inv, Numbered;
    if es != [] {
      var front := es[..|es| - 1];
      PausedExactly(config, front);
      Reached(config, front);
      PauseStep(Run(InitialBook(config), front), es[|es| - 1]);
    }
  }

  /** The flag stops every call that starts something and no other call, in every reachable state. */
  lemma PausingExactly(config: Config, es: seq<Event>, now: nat, c: Call)
    ensures Perform(Run(InitialBook(config), es), now, c) == Err(ContractPaused) <==> Starts(c) && PauseSetting(config, es)
  {
    PausedExactly(config, es);
    hide Run, PauseSetting;
    PausedRefuses(Run(InitialBook(config), es), now, c);
  }

  lemma PausedRefuses(b: Book, now: nat, c: Call)
    ensures Perform(b, now, c) == Err(ContractPaused) <==> Starts(c) && b.paused
  {
    hide BoundHere, ValidPolicy, TreasuryHeader, RequestHeader, Put, After;
  }

  lemma {:induction false} SettingStays(config: Config, es: seq<Event>, i: nat, j: nat)
    requires i < j <= |es| && es[i].call.CallSetPaused? && es[i].call.sender == config.owner
    requires forall k :: i < k < j && es[k].call.CallSetPaused? && es[k].call.sender == config.owner
                         ==> es[k].call.flag == es[i].call.flag
    ensures PauseSetting(config, es[..j]) == es[i].call.flag
  {
    assert es[..j][..j - 1] == es[..j - 1];
    if j > i + 1 {
      SettingStays(config, es, i, j - 1);
    }
  }

  /** From the owner's setPaused(true) to the next setPaused(false) nothing starts; from the owner's
      setPaused(false) to the next setPaused(true) the flag refuses nothing. */
  lemma PausedUntilResumed(config: Config, es: seq<Event>, i: nat, j: nat)
    requires i < j < |es| && es[i].call.CallSetPaused? && es[i].call.sender == config.owner
    requires forall k :: i < k < j && es[k].call.CallSetPaused? && es[k].call.sender == config.owner
                         ==> es[k].call.flag == es[i].call.flag
    ensures Accepts(Run(InitialBook(config), es[..i]), es[i])
    ensures
      var b, e := Run(InitialBook(config), es[..j]), es[j];
      if es[i].call.flag then Starts(e.call) ==> !Accepts(b, e)
      else Perform(b, e.now, e.call) != Err(ContractPaused)
  {
    Reached(config, es[..i]);
    PauseAccepted(Run(InitialBook(config), es[..i]), es[i]);
    hide Run, PauseSetting, Perform, Inv, Numbered;
    SettingStays(config, es, i, j);
    PausingExactly(config, es[..j], es[j].now, es[j].call);
  }

  /** What was last set for one treasury by its owner or the contract's; open when created. */
  function TreasurySetting(config: Config, es: seq<Event>, tid: nat): bool {
    if es == [] then false
    else
      var front, c := es[..|es| - 1], es[|es| - 1].call;
      if SetsTreasury(Run(InitialBook(config), front), c, tid) then c.flag else TreasurySetting(config, front, tid)
  }

  predicate SetsTreasury(b: Book, c: Call, tid: nat) {
    && c.CallSetTreasuryPaused? && c.tid == tid && tid in b.treasuries
    && (c.sender == b.treasuries[tid].owner || c.sender == b.config.owner)
  }

  predicate TreasuryFlag(b: Book, tid: nat) {
    tid in b.treasuries && b.treasuries[tid].paused
  }

  lemma TreasuryPauseAccepted(b: Book, e: Event)
    requires e.call.CallSetTreasuryPaused?
    ensures Accepts(b, e) <==> SetsTreasury(b, e.call, e.call.tid)
  {
  }

  lemma TreasuryPauseStep(b: Book, e: Event, tid: nat)
    requires Numbered(b)
    ensures TreasuryFlag(After(b, e.now, e.call), tid) == if SetsTreasury(b, e.call, tid) then e.call.flag else TreasuryFlag(b, tid)
  {
    RejectedChangesNothing(b, e);
    if e.call.CallSetTreasuryPaused? {
      TreasuryPauseAccepted(b, e);
    }
    hide Perform, After, ReservedAfter;
    if Accepts(b, e) {
      if tid in After(b, e.now, e.call).treasuries {
        TreasuryWritten(b, e.now, e.call, tid);
      } else if tid in b.treasuries {
        TreasuryStaysOnce(b, e, tid);
      }
    }
  }

  /** Each treasury's flag is what was last set for it; settings for other treasuries do not touch it. */
  lemma {:induction false} TreasuryPausedExactly(config: Config, es: seq<Event>, tid: nat)
    ensures TreasuryFlag(Run(InitialBook(config), es), tid) == TreasurySetting(config, es, tid)
  {
    hide After, Inv, Numbered, SetsTreasury;
    if es != [] {
      var front := es[..|es| - 1];
      TreasuryPausedExactly(config, front, tid);
      Reached(config, front);
      TreasuryPauseStep(Run(InitialBook(config), front), es[|es| - 1], tid);
    }
  }

  /** Calls a treasury's flag can stop: new requests and signatures. */
  predicate Spends(c: Call) {
    c.CallCreatePaymentRequest? || c.CallRequestSignature?
  }

  /** A treasury's flag stops its new requests and signatures; where it is not set it refuses nothing. */
  lemma TreasuryPausingExactly(config: Config, es: seq<Event>, now: nat, c: Call)
    ensures
      var b := Run(InitialBook(config), es);
      var stopped := TreasurySetting(config, es, ActedOn(b, c));
      && (Spends(c) && stopped ==> Perform(b, now, c).Err?)
      && (!(Spends(c) && stopped) ==> Perform(b, now, c) != Err(TreasuryPaused))
  {
    TreasuryPausedExactly(config, es, ActedOn(Run(InitialBook(config), es), c));
    hide Run, TreasurySetting;
    TreasuryPausedRefuses(Run(InitialBook(config), es), now, c);
  }

  lemma TreasuryPausedRefuses(b: Book, now: nat, c: Call)
    ensures Spends(c) && TreasuryFlag(b, ActedOn(b, c)) ==> Perform(b, now, c).Err?
    ensures !(Spends(c) && TreasuryFlag(b, ActedOn(b, c))) ==> Perform(b, now, c) != Err(TreasuryPaused)
  {
    hide BoundHere, ValidPolicy, TreasuryHeader, RequestHeader, Put, After;
  }

  // ---- Events of a run ----

  /** Some event of the run was accepted and is as described. */
  ghost predicate Happened(config: Config, es: seq<Event>, p: (Book, Event) -> bool) {
    exists i: nat :: At(config, es, i, p)
  }

  ghost predicate At(config: Config, es: seq<Event>, i: nat, p: (Book, Event) -> bool) {
    i < |es| && Accepts(Run(InitialBook(config), es[..i]), es[i]) && p(Run(InitialBook(config), es[..i]), es[i])
  }

  lemma HappenedLater(config: Config, es: seq<Event>, p: (Book, Event) -> bool)
    requires es != [] && Happened(config, es[..|es| - 1], p)
    ensures Happened(config, es, p)
  {
    hide Accepts, Run;
    var i: nat :| At(config, es[..|es| - 1], i, p);
    assert es[..|es| - 1][..i] == es[..i];
    assert At(config, es, i, p);
  }

  lemma HappensNow(config: Config, es: seq<Event>, p: (Book, Event) -> bool)
    requires es != []
    requires var b := Run(InitialBook(config), es[..|es| - 1]); Accepts(b, es[|es| - 1]) && p(b, es[|es| - 1])
    ensures Happened(config, es, p)
  {
    assert At(config, es, |es| - 1, p);
  }

  // ---- Where a treasury comes from ----

  ghost function Founding(tid: nat, owner: Address): (Book, Event) -> bool {
    (b: Book, e: Event) => e.call.CallCreateTreasury? && tid == b.treasuryCount + 1 && owner == e.call.sender
  }

  ghost function Binding(tid: nat, address: string): (Book, Event) -> bool {
    (b: Book, e: Event) => BindsTo(e.call, tid, address)
  }

  predicate BindsTo(c: Call, tid: nat, address: string) {
    c.CallBind? && c.res.body.Bind? && c.res.body.treasuryId == tid && c.res.body.xrplAddress == address
  }

  /** Every treasury was created by its owner, and has an address exactly when a bind was accepted. */
  lemma {:induction false} TreasuryOrigin(config: Config, es: seq<Event>, tid: nat)
    requires tid in Run(InitialBook(config), es).treasuries
    ensures
      var t := Run(InitialBook(config), es).treasuries[tid];
      && Happened(config, es, Founding(tid, t.owner))
      && (if t.bound then Happened(config, es, Binding(tid, t.xrplAddress)) else t.xrplAddress == "" && t.xrplAddressHash == Zero)
  {
    assert es != [];
    var front, e := es[..|es| - 1], es[|es| - 1];
    var b := Run(InitialBook(config), front);
    var b' := After(b, e.now, e.call);
    assert Run(InitialBook(config), es) == b';
    Reached(config, front);
    RejectedChangesNothing(b, e);
    hide Run, After, Accepts, Inv, Numbered, ReservedAfter, Happened;
    if tid in b.treasuries {
      TreasuryOrigin(config, front, tid);
      HappenedLater(config, es, Founding(tid, b.treasuries[tid].owner));
      if b.treasuries[tid].bound {
        HappenedLater(config, es, Binding(tid, b.treasuries[tid].xrplAddress));
      }
    }
    if Accepts(b, e) {
      AcceptedTreasury(b, e, tid);
      if tid !in b.treasuries {
        HappensNow(config, es, Founding(tid, e.call.sender));
      } else if e.call.CallBind? && e.call.res.body.Bind? && e.call.res.body.treasuryId == tid {
        HappensNow(config, es, Binding(tid, e.call.res.body.xrplAddress));
      }
    }
  }

  lemma AcceptedTreasury(b: Book, e: Event, tid: nat)
    requires Numbered(b) && Accepts(b, e) && tid in After(b, e.now, e.call).treasuries
    ensures
      var t', c := After(b, e.now, e.call).treasuries[tid], e.call;
      if tid !in b.treasuries then
        c.CallCreateTreasury? && tid == b.treasuryCount + 1 && t'.owner == c.sender && !t'.bound
        && t'.xrplAddress == "" && t'.xrplAddressHash == Zero
      else if c.CallBind? && c.res.body.Bind? && c.res.body.treasuryId == tid then
        t'.owner == b.treasuries[tid].owner && t'.bound && t'.xrplAddress == c.res.body.xrplAddress
      else
        var t := b.treasuries[tid];
        t'.owner == t.owner && t'.bound == t.bound && t'.xrplAddress == t.xrplAddress && t'.xrplAddressHash == t.xrplAddressHash
  {
    hide After, Perform, Numbered, ReservedAfter;
    TreasuryWritten(b, e.now, e.call, tid);
  }

  // ---- Where a request's record comes from ----

  ghost function Opening(rid: nat, r: Request): (Book, Event) -> bool {
    (b: Book, e: Event) => Opened(b, e.now, e.call, rid, r)
  }

  /** In time, within both caps of the policy live at that moment. */
  ghost predicate Authorizes(b: Book, e: Event, rid: nat, r: Request) {
    && e.call.CallSubmitAuthorization? && About(e.call, rid) && e.call.res.signer == b.config.teeAddress
    && e.call.res.body.amountDrops == r.amountDrops && e.call.res.body.destinationHash == r.destinationHash
    && e.call.res.body.payloadHash == r.payloadHash && e.call.res.body.memoRef == r.memoRef
    && e.now <= r.expiresAt && r.treasuryId in b.treasuries
    && var t := b.treasuries[r.treasuryId];
       0 < r.amountDrops <= t.policy.maxPerPaymentDrops && t.reservedDrops + r.amountDrops <= t.policy.maxTotalDrops
  }

  ghost function Authorizing(rid: nat, r: Request): (Book, Event) -> bool {
    (b: Book, e: Event) => Authorizes(b, e, rid, r)
  }

  ghost predicate SignsFor(b: Book, e: Event, rid: nat, r: Request) {
    && e.call.CallSubmitSignedPayment? && About(e.call, rid) && e.call.res.signer == b.config.teeAddress
    && r.expectedTxId == e.call.res.body.expectedTxId && r.signedBlobHash == Keccak(Data(e.call.res.body.signedTxBlob))
    && e.call.res.body.memoRef == r.memoRef && e.now <= r.expiresAt
  }

  ghost function Signing(rid: nat, r: Request): (Book, Event) -> bool {
    (b: Book, e: Event) => SignsFor(b, e, rid, r)
  }

  ghost function Settling(rid: nat, txId: Bytes32): (Book, Event) -> bool {
    (b: Book, e: Event) => e.call == CallMarkSettled(b.config.fdcVerifier, rid, txId)
  }

  /** The call whose acceptance puts a request into an ended state. */
  predicate EndsIn(c: Call, rid: nat, s: RequestState) {
    About(c, rid) && match s
      case CANCELLED => c.CallCancelRequest?
      case EXPIRED => c.CallExpireRequest?
      case FAILED => c.CallSubmitFailure?
      case _ => false
  }

  ghost function EndingIn(rid: nat, s: RequestState): (Book, Event) -> bool {
    (b: Book, e: Event) => EndsIn(e.call, rid, s)
  }

  /** Which fields are set in which states. */
  predicate Filled(r: Request) {
    && (r.state == CREATED ==> Blank(r))
    && (r.state == AUTHORIZED || r.state == SIGNED || r.state == BROADCAST || r.state == SETTLED ==> r.destinationHash != Zero)
    && (r.destinationHash == Zero ==> r.amountDrops == 0 && r.signedBlobHash == Zero)
    && (Signed(r.state) || r.state == SETTLED ==> r.signedBlobHash != Zero)
    && (Open(r.state) || r.state == CANCELLED || r.state == FAILED ==> r.signedBlobHash == Zero)
    && (r.signedBlobHash == Zero ==> r.expectedTxId == r.xrplTxId == Zero)
    && (r.state == SIGNED ==> r.xrplTxId == Zero)
    && (r.state == BROADCAST ==> r.xrplTxId == r.expectedTxId)
    && (r.state == EXPIRED ==> r.xrplTxId == Zero || r.xrplTxId == r.expectedTxId)
    && r.state != NONE
  }

  /** The accepted calls behind each field. */
  ghost predicate RequestTraced(config: Config, es: seq<Event>, rid: nat, r: Request) {
    && Happened(config, es, Opening(rid, r))
    && (r.destinationHash != Zero ==> Happened(config, es, Authorizing(rid, r)))
    && (r.signedBlobHash != Zero ==> Happened(config, es, Signing(rid, r)))
    && (r.state == SETTLED ==> Happened(config, es, Settling(rid, r.xrplTxId)))
    && (r.state == CANCELLED || r.state == EXPIRED || r.state == FAILED ==> Happened(config, es, EndingIn(rid, r.state)))
  }

  /** What an accepted call on a request found. */
  lemma AcceptedAbout(b: Book, e: Event, rid: nat)
    requires Accepts(b, e) && About(e.call, rid)
    ensures rid in b.requests
    ensures
      var r, c := b.requests[rid], e.call;
      match c
      case CallSubmitAuthorization(_) =>
        r.state == CREATED && Authorizes(b, e, rid, RequestAfter(c, rid, r)) && c.res.body.destinationHash != Zero
      case CallSubmitSignedPayment(_) => r.state == AUTHORIZED && SignsFor(b, e, rid, RequestAfter(c, rid, r))
      case CallReportBroadcast(_, txId) => r.state == SIGNED && txId == r.expectedTxId
      case CallMarkSettled(sender, _, _) => Signed(r.state) && sender == b.config.fdcVerifier
      case CallExpireRequest(_) => Open(r.state) || Signed(r.state)
      case _ => Open(r.state)
  {
    hide BoundHere, Release, After;
  }

  lemma FilledStep(b: Book, e: Event, rid: nat)
    requires Accepts(b, e) && About(e.call, rid) && rid in b.requests && Filled(b.requests[rid])
    ensures Filled(RequestAfter(e.call, rid, b.requests[rid]))
  {
    hide Accepts;
    AcceptedAbout(b, e, rid);
  }

  lemma HappenedAs(config: Config, es: seq<Event>, p: (Book, Event) -> bool, q: (Book, Event) -> bool)
    requires Happened(config, es, p) && forall b, e :: p(b, e) ==> q(b, e)
    ensures Happened(config, es, q)
  {
    hide Accepts, Run;
    var i: nat :| At(config, es, i, p);
    assert At(config, es, i, q);
  }

  /** What an earlier event did to a request still shows in the parts later calls leave alone. */
  lemma OpeningStays(config: Config, es: seq<Event>, rid: nat, r: Request, r': Request)
    requires es != [] && Happened(config, es[..|es| - 1], Opening(rid, r)) && SameIdentity(r, r')
    ensures Happened(config, es, Opening(rid, r'))
  {
    hide Happened;
    HappenedLater(config, es, Opening(rid, r));
    HappenedAs(config, es, Opening(rid, r), Opening(rid, r'));
  }

  lemma AuthorizingStays(config: Config, es: seq<Event>, rid: nat, r: Request, r': Request)
    requires es != [] && Happened(config, es[..|es| - 1], Authorizing(rid, r)) && SameIdentity(r, r')
    requires r'.amountDrops == r.amountDrops && r'.destinationHash == r.destinationHash
    ensures Happened(config, es, Authorizing(rid, r'))
  {
    hide Happened;
    HappenedLater(config, es, Authorizing(rid, r));
    HappenedAs(config, es, Authorizing(rid, r), Authorizing(rid, r'));
  }

  lemma SigningStays(config: Config, es: seq<Event>, rid: nat, r: Request, r': Request)
    requires es != [] && Happened(config, es[..|es| - 1], Signing(rid, r)) && SameIdentity(r, r')
    requires r'.expectedTxId == r.expectedTxId && r'.signedBlobHash == r.signedBlobHash
    ensures Happened(config, es, Signing(rid, r'))
  {
    hide Happened;
    HappenedLater(config, es, Signing(rid, r));
    HappenedAs(config, es, Signing(rid, r), Signing(rid, r'));
  }

  /** A record the last event left alone. */
  lemma TracedLater(config: Config, es: seq<Event>, rid: nat, r: Request)
    requires es != [] && RequestTraced(config, es[..|es| - 1], rid, r)
    ensures RequestTraced(config, es, rid, r)
  {
    hide Happened, Opening, Authorizing, Signing, Settling, EndingIn;
    HappenedLater(config, es, Opening(rid, r));
    if r.destinationHash != Zero {
      HappenedLater(config, es, Authorizing(rid, r));
    }
    if r.signedBlobHash != Zero {
      HappenedLater(config, es, Signing(rid, r));
    }
    if r.state == SETTLED {
      HappenedLater(config, es, Settling(rid, r.xrplTxId));
    }
    if r.state == CANCELLED || r.state == EXPIRED || r.state == FAILED {
      HappenedLater(config, es, EndingIn(rid, r.state));
    }
  }

  /** The parts of an earlier record that the last event left alone. */
  lemma TracedAfter(config: Config, es: seq<Event>, rid: nat, r: Request, r': Request)
    requires es != [] && RequestTraced(config, es[..|es| - 1], rid, r) && SameIdentity(r, r')
    ensures Happened(config, es, Opening(rid, r'))
    ensures r.destinationHash != Zero && r'.amountDrops == r.amountDrops && r'.destinationHash == r.destinationHash
            ==> Happened(config, es, Authorizing(rid, r'))
    ensures r.signedBlobHash != Zero && r'.expectedTxId == r.expectedTxId && r'.signedBlobHash == r.signedBlobHash
            ==> Happened(config, es, Signing(rid, r'))
  {
    hide Happened, Opening, Authorizing, Signing, Settling, EndingIn;
    OpeningStays(config, es, rid, r, r');
    if r.destinationHash != Zero && r'.amountDrops == r.amountDrops && r'.destinationHash == r.destinationHash {
      AuthorizingStays(config, es, rid, r, r');
    }
    if r.signedBlobHash != Zero && r'.expectedTxId == r.expectedTxId && r'.signedBlobHash == r.signedBlobHash {
      SigningStays(config, es, rid, r, r');
    }
  }

  /** What the last event itself did. */
  lemma LastEvent(config: Config, es: seq<Event>, b: Book, e: Event, rid: nat)
    requires es != [] && b == Run(InitialBook(config), es[..|es| - 1]) && e == es[|es| - 1]
    requires Accepts(b, e) && About(e.call, rid)
    ensures rid in b.requests
    ensures
      var r' := RequestAfter(e.call, rid, b.requests[rid]);
      && (e.call.CallSubmitAuthorization? ==> Happened(config, es, Authorizing(rid, r')))
      && (e.call.CallSubmitSignedPayment? ==> Happened(config, es, Signing(rid, r')))
      && (e.call.CallMarkSettled? ==> Happened(config, es, Settling(rid, r'.xrplTxId)))
      && (EndingCall(e.call) ==> Happened(config, es, EndingIn(rid, r'.state)))
  {
    hide Happened, Run, Accepts, Authorizes, SignsFor, Opened;
    AcceptedAbout(b, e, rid);
    var r' := RequestAfter(e.call, rid, b.requests[rid]);
    if e.call.CallSubmitAuthorization? {
      HappensNow(config, es, Authorizing(rid, r'));
    } else if e.call.CallSubmitSignedPayment? {
      HappensNow(config, es, Signing(rid, r'));
    } else if e.call.CallMarkSettled? {
      HappensNow(config, es, Settling(rid, r'.xrplTxId));
    } else if EndingCall(e.call) {
      HappensNow(config, es, EndingIn(rid, r'.state));
    }
  }

  /** Which parts of a record a call about it writes. */
  lemma AfterParts(c: Call, rid: nat, r: Request)
    requires About(c, rid)
    ensures
      var r' := RequestAfter(c, rid, r);
      && SameIdentity(r, r')
      && (!c.CallSubmitAuthorization? ==> r'.amountDrops == r.amountDrops && r'.destinationHash == r.destinationHash)
      && (!c.CallSubmitSignedPayment? ==> r'.expectedTxId == r.expectedTxId && r'.signedBlobHash == r.signedBlobHash)
      && (r'.state == SETTLED ==> c.CallMarkSettled?)
      && (r'.state == CANCELLED || r'.state == EXPIRED || r'.state == FAILED ==> EndingCall(c))
  {
  }

  lemma AcceptedStates(b: Book, e: Event, rid: nat)
    requires Accepts(b, e) && About(e.call, rid) && rid in b.requests && Filled(b.requests[rid])
    ensures e.call.CallSubmitAuthorization? ==> b.requests[rid].signedBlobHash == Zero
  {
    hide Accepts;
    AcceptedAbout(b, e, rid);
  }

  /** A record the last event wrote. */
  lemma TracedNow(config: Config, es: seq<Event>, rid: nat, r: Request)
    requires es != [] && RequestTraced(config, es[..|es| - 1], rid, r) && Filled(r)
    requires
      var b, e := Run(InitialBook(config), es[..|es| - 1]), es[|es| - 1];
      Accepts(b, e) && About(e.call, rid) && rid in b.requests && b.requests[rid] == r
    ensures RequestTraced(config, es, rid, RequestAfter(es[|es| - 1].call, rid, r))
  {
    var b, e := Run(InitialBook(config), es[..|es| - 1]), es[|es| - 1];
    var r' := RequestAfter(e.call, rid, r);
    hide Happened, Run, Accepts, Opening, Authorizing, Signing, Settling, EndingIn, SameIdentity, RequestAfter, About;
    AcceptedStates(b, e, rid);
    AfterParts(e.call, rid, r);
    LastEvent(config, es, b, e, rid);
    TracedAfter(config, es, rid, r, r');
  }

  lemma NewTraced(config: Config, es: seq<Event>, rid: nat, r: Request)
    requires es != [] && Blank(r)
    requires var b, e := Run(InitialBook(config), es[..|es| - 1]), es[|es| - 1]; Accepts(b, e) && Opened(b, e.now, e.call, rid, r)
    ensures RequestTraced(config, es, rid, r)
  {
    hide Happened;
    HappensNow(config, es, Opening(rid, r));
  }

  lemma SubmitsNothingElse(c: Call, rid: nat, r: Request)
    ensures !About(c, rid) ==> RequestAfter(c, rid, r) == r
  {
  }

  /** In every state of every run, each request's record is what the accepted calls about it left: its
      identity from the call that opened it, its terms from an authorization made in time and within both
      caps of the policy then live, its blob and predicted id from a signature, its end from an ending
      call. */
  lemma {:induction false} RequestOrigin(config: Config, es: seq<Event>, rid: nat)
    requires rid in Run(InitialBook(config), es).requests
    ensures
      var r := Run(InitialBook(config), es).requests[rid];
      RequestTraced(config, es, rid, r) && Filled(r)
  {
    assert es != [];
    var front, e := es[..|es| - 1], es[|es| - 1];
    var b := Run(InitialBook(config), front);
    var b' := After(b, e.now, e.call);
    assert Run(InitialBook(config), es) == b';
    assert Accepts(b, e) == Perform(b, e.now, e.call).Ok?;
    hide *;
    Reached(config, front);
    RejectedChangesNothing(b, e);
    if rid in b.requests {
      RequestOrigin(config, front, rid);
      TracedLater(config, es, rid, b.requests[rid]);
      if Accepts(b, e) {
        RequestWritten(b, e.now, e.call, rid);
        SubmitsNothingElse(e.call, rid, b.requests[rid]);
        if About(e.call, rid) {
          TracedNow(config, es, rid, b.requests[rid]);
          FilledStep(b, e, rid);
        }
      }
    } else {
      RequestWritten(b, e.now, e.call, rid);
      NewTraced(config, es, rid, b'.requests[rid]);
      BlankFilled(b'.requests[rid]);
    }
  }

  lemma BlankFilled(r: Request)
    ensures Blank(r) ==> Filled(r)
  {
  }

  // ---- The largest payment ever allowed ----

  function PaymentCapOf(b: Book, tid: nat): nat {
    if tid in b.treasuries then b.treasuries[tid].policy.maxPerPaymentDrops else 0
  }

  /** The largest maxPerPaymentDrops that was live for the treasury in some state of the run. */
  function HighestPaymentCap(b: Book, es: seq<Event>, tid: nat): nat {
    var before := if es == [] then 0 else HighestPaymentCap(b, es[..|es| - 1], tid);
    var cap := PaymentCapOf(Run(b, es), tid);
    if cap > before then cap else before
  }

  lemma {:induction false} HighestPaymentCapIsHighest(b: Book, es: seq<Event>, tid: nat)
    ensures forall i :: 0 <= i <= |es| ==> PaymentCapOf(Run(b, es[..i]), tid) <= HighestPaymentCap(b, es, tid)
    ensures exists i :: 0 <= i <= |es| && PaymentCapOf(Run(b, es[..i]), tid) == HighestPaymentCap(b, es, tid)
  {
    hide Run, PaymentCapOf;
    assert es[..|es|] == es;
    if es != [] {
      var front := es[..|es| - 1];
      HighestPaymentCapIsHighest(b, front, tid);
      assert forall i :: 0 <= i <= |front| ==> front[..i] == es[..i];
    }
  }

  /** No request, whatever became of it, was ever granted more than the largest per-payment cap that was
      live for its treasury; and every request that reserves was granted something. */
  lemma AmountsWithinPaymentCap(config: Config, es: seq<Event>, rid: nat)
    requires rid in Run(InitialBook(config), es).requests
    ensures
      var r := Run(InitialBook(config), es).requests[rid];
      && r.amountDrops <= HighestPaymentCap(InitialBook(config), es, r.treasuryId)
      && (Counts(Reserving, r.state) ==> r.amountDrops > 0)
  {
    var r := Run(InitialBook(config), es).requests[rid];
    hide Run, Accepts, HighestPaymentCap;
    RequestOrigin(config, es, rid);
    if r.destinationHash != Zero {
      var i: nat :| At(config, es, i, Authorizing(rid, r));
      HighestPaymentCapIsHighest(InitialBook(config), es, r.treasuryId);
      assert Authorizes(Run(InitialBook(config), es[..i]), es[i], rid, r);
      assert PaymentCapOf(Run(InitialBook(config), es[..i]), r.treasuryId) <= HighestPaymentCap(InitialBook(config), es, r.treasuryId);
    }
  }

  // ---- Giving a reservation back ----

  /** The call gives back exactly what the request held, and changes nothing else. */
  ghost predicate Releases(b: Book, rid: nat, final: RequestState, b': Book)
    requires rid in b.requests
  {
    var r := b.requests[rid];
    && b' == b.(requests := b.requests[rid := r.(state := final)], treasuries := b'.treasuries)
    && b'.treasuries.Keys == b.treasuries.Keys
    && (forall tid :: tid in b.treasuries ==>
          b'.treasuries[tid] == b.treasuries[tid].(reservedDrops := b'.treasuries[tid].reservedDrops)
          && b'.treasuries[tid].reservedDrops == b.treasuries[tid].reservedDrops - (if tid == r.treasuryId then Held(r) else 0))
  }

  lemma ReleaseReleases(b: Book, rid: nat, final: RequestState)
    requires rid in b.requests && Release(b, rid, final).Ok?
    ensures Releases(b, rid, final, Release(b, rid, final).value)
  {
    hide Release, Held;
    ReleaseWrites(b, rid, final, 0);
    forall tid | tid in b.treasuries
      ensures var t' := Release(b, rid, final).value.treasuries[tid];
        t' == b.treasuries[tid].(reservedDrops := t'.reservedDrops)
        && t'.reservedDrops == b.treasuries[tid].reservedDrops - (if tid == b.requests[rid].treasuryId then Held(b.requests[rid]) else 0)
    {
      ReleaseWrites(b, rid, final, tid);
    }
  }

  lemma NoUnderflow(config: Config, es: seq<Event>, rid: nat, final: RequestState)
    requires rid in Run(InitialBook(config), es).requests && Open(Run(InitialBook(config), es).requests[rid].state)
    ensures
      var b := Run(InitialBook(config), es);
      b.requests[rid].treasuryId in b.treasuries && Release(b, rid, final).Ok?
      && Releases(b, rid, final, Release(b, rid, final).value)
  {
    Reached(config, es);
    hide Run, Release, Numbered, TreasuryOk, ListOk, Conserved, Releases;
    var b := Run(InitialBook(config), es);
    assert RequestOk(b, rid);
    ReleaseNeverUnderflows(b, rid, final);
    ReleaseReleases(b, rid, final);
  }

  lemma RequestHasHome(config: Config, es: seq<Event>, rid: nat)
    requires rid in Run(InitialBook(config), es).requests
    ensures var b := Run(InitialBook(config), es); b.requests[rid].treasuryId in b.treasuries
  {
    Reached(config, es);
    hide Run, Numbered, TreasuryOk, ListOk, Conserved;
    assert RequestOk(Run(InitialBook(config), es), rid);
  }

  /** In every reachable state a request can be cancelled exactly by its treasury's owner and exactly
      before it is signed; the reservation is given back in full. */
  lemma CancelExactly(config: Config, es: seq<Event>, sender: Address, rid: nat)
    requires rid in Run(InitialBook(config), es).requests
    ensures
      var b := Run(InitialBook(config), es);
      var r := b.requests[rid];
      && r.treasuryId in b.treasuries
      && (CancelRequest(b, sender, rid).Ok? <==>
            sender == b.treasuries[r.treasuryId].owner && (r.state == CREATED || r.state == AUTHORIZED))
      && (CancelRequest(b, sender, rid).Ok? ==> Releases(b, rid, CANCELLED, CancelRequest(b, sender, rid).value))
  {
    hide Run, Release, Releases;
    RequestHasHome(config, es, rid);
    if Open(Run(InitialBook(config), es).requests[rid].state) {
      NoUnderflow(config, es, rid, CANCELLED);
    }
  }

  /** It is recorded as failed exactly on the registered enclave's word, with status 0 and for this
      contract, and exactly before it is signed. */
  lemma FailureExactly(config: Config, es: seq<Event>, res: TeeResult)
    ensures
      var b := Run(InitialBook(config), es);
      && (SubmitFailure(b, res).Ok? <==>
            && config.teeAddress != 0 && res.status == 0 && res.signer == config.teeAddress
            && res.body.Failure? && res.body.chainId == config.chainId && res.body.controller == config.self
            && res.body.requestId in b.requests
            && (b.requests[res.body.requestId].state == CREATED || b.requests[res.body.requestId].state == AUTHORIZED))
      && (SubmitFailure(b, res).Ok? ==> Releases(b, res.body.requestId, FAILED, SubmitFailure(b, res).value))
  {
    Reached(config, es);
    hide Run, Release, Releases, Inv, Numbered;
    var b := Run(InitialBook(config), es);
    if res.body.Failure? && res.body.requestId in b.requests && Open(b.requests[res.body.requestId].state) {
      NoUnderflow(config, es, res.body.requestId, FAILED);
    }
  }

  /** Expiry gives the reservation back in the same way. */
  lemma ExpiryReleases(config: Config, es: seq<Event>, now: nat, rid: nat)
    requires rid in Run(InitialBook(config), es).requests && ExpireRequest(Run(InitialBook(config), es), now, rid).Ok?
    ensures
      var b := Run(InitialBook(config), es);
      Releases(b, rid, EXPIRED, ExpireRequest(b, now, rid).value)
  {
    hide Run, Release, Releases;
    ReleaseReleases(Run(InitialBook(config), es), rid, EXPIRED);
  }

  // ---- Acceptance of an authorization ----

  /** Signed by the registered enclave for this contract; the answer to a request still CREATED, with its
      memo reference and payload, in time; to a named destination; and of a positive amount within the
      per-payment cap and what the cumulative cap leaves. */
  predicate Authorizable(b: Book, now: nat, res: TeeResult)
    requires res.body.Authorization? && res.body.requestId in b.requests
    requires b.requests[res.body.requestId].treasuryId in b.treasuries
  {
    var body, r := res.body, b.requests[res.body.requestId];
    var t := b.treasuries[r.treasuryId];
    && b.config.teeAddress != 0 && res.status == 1 && res.signer == b.config.teeAddress
    && body.chainId == b.config.chainId && body.controller == b.config.self
    && r.state == CREATED && now <= r.expiresAt
    && body.memoRef == r.memoRef && body.payloadHash == r.payloadHash && body.destinationHash != Zero
    && 0 < body.amountDrops <= t.policy.maxPerPaymentDrops
    && t.reservedDrops + body.amountDrops <= t.policy.maxTotalDrops
    && Fits256(t.reservedDrops + body.amountDrops)
  }

  lemma AuthorizableAccepted(b: Book, now: nat, res: TeeResult)
    requires res.body.Authorization? && res.body.requestId in b.requests
    requires b.requests[res.body.requestId].treasuryId in b.treasuries
    ensures SubmitAuthorization(b, now, res).Ok? <==> Authorizable(b, now, res)
  {
    hide Put;
  }

  /** In every reachable state an authorization for a known request is accepted exactly when it meets all
      of that. */
  lemma AuthorizationExactly(config: Config, es: seq<Event>, now: nat, res: TeeResult)
    requires res.body.Authorization? && res.body.requestId in Run(InitialBook(config), es).requests
    ensures
      var b := Run(InitialBook(config), es);
      b.requests[res.body.requestId].treasuryId in b.treasuries
      && (SubmitAuthorization(b, now, res).Ok? <==> Authorizable(b, now, res))
  {
    hide *;
    RequestHasHome(config, es, res.body.requestId);
    AuthorizableAccepted(Run(InitialBook(config), es), now, res);
  }

  // ---- Where an instruction comes from ----

  /** Event i is the accepted call that sent instruction k. */
  ghost predicate SentAt(config: Config, es: seq<Event>, i: nat, k: nat, instruction: Instruction) {
    && i < |es| && var b := Run(InitialBook(config), es[..i]);
       && Accepts(b, es[i]) && Starts(es[i].call) && |b.sent| == k
       && Announces(After(b, es[i].now, es[i].call), es[i].call, instruction)
  }

  lemma SentLater(config: Config, es: seq<Event>, i: nat, k: nat, instruction: Instruction)
    requires es != [] && SentAt(config, es[..|es| - 1], i, k, instruction)
    ensures SentAt(config, es, i, k, instruction)
  {
    hide Accepts, Run, Announces;
    assert es[..|es| - 1][..i] == es[..i];
  }

  /** Each instruction in the registry's log was sent by one accepted starting call, the k-th by the k-th,
      and says what that call was about. */
  lemma {:induction false} InstructionOrigin(config: Config, es: seq<Event>, k: nat)
    requires k < |Run(InitialBook(config), es).sent|
    ensures exists i: nat :: SentAt(config, es, i, k, Run(InitialBook(config), es).sent[k])
  {
    assert es != [];
    var front, e := es[..|es| - 1], es[|es| - 1];
    var b := Run(InitialBook(config), front);
    assert Run(InitialBook(config), es) == After(b, e.now, e.call);
    assert Accepts(b, e) == Perform(b, e.now, e.call).Ok?;
    Reached(config, front);
    RejectedChangesNothing(b, e);
    hide Run, After, Accepts, Inv, Numbered, Announces, Perform;
    if Accepts(b, e) {
      CallSendsAsDue(b, e.now, e.call);
    }
    var instruction := After(b, e.now, e.call).sent[k];
    if k < |b.sent| {
      assert b.sent[k] == instruction;
      InstructionOrigin(config, front, k);
      var i: nat :| SentAt(config, front, i, k, instruction);
      SentLater(config, es, i, k, instruction);
    } else {
      assert SentAt(config, es, |es| - 1, k, instruction);
    }
  }

  /** How many starting calls a run accepts. */
  function Started(b: Book, es: seq<Event>): nat {
    if es == [] then 0
    else
      var front, e := es[..|es| - 1], es[|es| - 1];
      Started(b, front) + if Starts(e.call) && Accepts(Run(b, front), e) then 1 else 0
  }

  /** The log holds one instruction for each. */
  lemma {:induction false} InstructionsCounted(config: Config, es: seq<Event>)
    ensures |Run(InitialBook(config), es).sent| == Started(InitialBook(config), es)
  {
    if es != [] {
      var front, e := es[..|es| - 1], es[|es| - 1];
      var b := Run(InitialBook(config), front);
      assert Accepts(b, e) == Perform(b, e.now, e.call).Ok?;
      hide After, Accepts, Inv, Numbered, Announces, Perform;
      InstructionsCounted(config, front);
      Reached(config, front);
      RejectedChangesNothing(b, e);
      if Accepts(b, e) {
        CallSendsAsDue(b, e.now, e.call);
      }
    }
  }

  // ---- Views ----

  /** availableDrops and what every open reservation holds add up to the live cap; it reverts exactly when
      they exceed it. */
  lemma AvailableExactly(config: Config, es: seq<Event>, tid: nat)
    ensures
      var b := Run(InitialBook(config), es);
      var reserving := Total(b.requests, b.requestCount, tid, Reserving);
      match AvailableDrops(b, tid)
      case Ok(n) => tid in b.treasuries && n + reserving == b.treasuries[tid].policy.maxTotalDrops
      case Err(e) =>
        if tid in b.treasuries then e == Panic && reserving > b.treasuries[tid].policy.maxTotalDrops
        else e == Error.UnknownTreasury
  {
    Reached(config, es);
    hide Run, Numbered, TreasuryOk, ListOk, RequestOk, Total;
    var b := Run(InitialBook(config), es);
    if tid in b.treasuries {
      assert Conserved(b, tid);
    }
  }

  /** What the verifier is told to expect: the hash of the treasury's bound address, the request's terms
      and the 36 bytes "BSF1" and its memo reference; unknown requests are an error. */
  lemma ExpectationExactly(config: Config, es: seq<Event>, word: Bytes32 -> Word32, rid: nat)
    ensures
      var b := Run(InitialBook(config), es);
      if rid !in b.requests then SettlementExpectation(b, word, rid) == Err(UnknownRequest)
      else
        var r := b.requests[rid];
        && SettlementExpectation(b, word, rid).Ok? && r.treasuryId in b.treasuries && b.treasuries[r.treasuryId].bound
        && var e := SettlementExpectation(b, word, rid).value;
           && e.sourceAddressHash == Keccak(Text(b.treasuries[r.treasuryId].xrplAddress))
           && e.destinationHash == r.destinationHash && e.amountDrops == r.amountDrops && e.state == r.state
           && |e.expectedMemo| == 36 && e.expectedMemo[..4] == [0x42, 0x53, 0x46, 0x31]
           && e.expectedMemo[4..] == word(Keccak(MemoEncoding(config.chainId, config.self, r.treasuryId, rid, r.nonce)))
  {
    Reached(config, es);
    hide Run, Numbered, ListOk, Conserved;
    var b := Run(InitialBook(config), es);
    if rid in b.requests {
      assert RequestOk(b, rid) && TreasuryOk(b, b.requests[rid].treasuryId);
    }
  }
}
