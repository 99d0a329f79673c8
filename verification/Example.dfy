/** One deployment in full, so that every scenario is a history of the protocol from its start: a
    policy of 80 drops a payment and 100 in all, and two payments of 80. */
module Example {
  import opened Wrappers
  import opened Bytes
  import opened Protocol
  import opened ClassicAddress
  import opened XrplFields
  import opened Payments
  import opened PaymentRoundTrip
  import opened Books
  import opened Settlement
  import opened EnclaveState
  import opened EnclaveRuns
  import opened World
  import opened Agreement
  import opened PolicyRuns
  import opened Progress
  import opened Completion
  import opened Spending
  import opened LateProof
  import Scenarios

  const CONFIG := Config(1, 2, 3, 4, 5, 6)
  const WIDE := Policy(80, 100, 3600)
  const NARROW := Policy(50, 50, 3600)
  const OTHER := Policy(70, 90, 3600)
  // What the ledger answers when the first and the second payment are signed.
  const EARLY := Progress.Reading(7, 1000)
  const LATE := Progress.Reading(8, 2800)

  function Key(): SigningKey {
    SigningKey(1, seq(33, _ => 0))
  }

  function NineOpens(): Opening {
    Opening(9, WIDE, Key())
  }

  function Repeated(b: byte): AccountId {
    seq(20, _ => b)
  }

  function FlatChecksum(): Checksum {
    (bytes: seq<byte>) => [0, 0, 0, 0]
  }

  function Receiver(): string {
    var r := EncodeAddress(FlatChecksum(), Repeated(1));
    if r.Ok? then r.value else ""
  }

  function Terms(rid: nat): PaymentInstruction {
    PaymentInstruction(1, 2, 1, rid, Receiver(), 80, 0, false)
  }

  function WordOf(): Bytes32 -> Word32 {
    (h: Bytes32) => seq(32, _ => 0)
  }

  function CryptoOf(): Crypto {
    Crypto(FlatChecksum(), (key: PublicKey) => Repeated(0), (key: SigningKey, data: seq<byte>) => seq(8, _ => 0),
           (ciphertext: seq<byte>) => if ciphertext == [1] then Some(Terms(1)) else if ciphertext == [2] then Some(Terms(2)) else None,
           WordOf())
  }

  type Reports = Bytes32 -> Option<ResponseBody>

  /** The deployment, whatever FDC attests. */
  function NetOf(fdc: Reports): Net {
    Net(CryptoOf(), Site(5, Ascii("testXRP"), WordOf()), fdc)
  }

  const FIRST := Plan(1, 1, [1], Terms(1))
  const SECOND := Plan(1, 2, [2], Terms(2))

  lemma ReceiverIsForeign()
    ensures DecodeAddress(FlatChecksum(), Receiver()) == Ok(Repeated(1))
    ensures Receiver() != AddressOfKey(CryptoOf(), Key())
  {
    DecodesItsEncoding(FlatChecksum(), Repeated(1));
    AddressExists(CryptoOf(), Key());
    DecodesItsEncoding(FlatChecksum(), Repeated(0));
    assert Repeated(0)[0] != Repeated(1)[0];
    assert CryptoOf().accountIdOf(Key().publicKey) == Repeated(0);
    assert CryptoOf().checksum == FlatChecksum();
  }

  lemma ExampleWired(fdc: Reports)
    ensures Wired(NetOf(fdc), CONFIG)
  {
  }

  /** The treasury is open and the first payment can be asked for, then the second. */
  lemma Opened(fdc: Reports) returns (tr: Trace)
    ensures TraceOf(NetOf(fdc), CONFIG, tr) && Last(tr).system.book == OpenedBook(NetOf(fdc), CONFIG, NineOpens())
    ensures Ready(NetOf(fdc), Last(tr), FIRST) && Active(Last(tr), 1) && InBounds(Last(tr), 1)
    ensures Allowed(NetOf(fdc), Last(tr), SECOND) && Last(tr).clock == 0 && Last(tr).signings == []
    ensures GrantTotal(NetOf(fdc), tr, 1) == 0 && SigningTotal(NetOf(fdc), tr, 1) == 0
  {
    hide Follows, GrantTotal, SigningTotal, EncodeAddress, DecodeAddress, AddressOfKey, Receiver;
    tr := Opens(NetOf(fdc), CONFIG, 0, NineOpens(), 1);
    AllowedThere(fdc, Last(tr), FIRST, 1);
    AllowedThere(fdc, Last(tr), SECOND, 2);
  }

  lemma AllowedThere(fdc: Reports, s: State, p: Plan, rid: nat)
    requires s.system.book == OpenedBook(NetOf(fdc), CONFIG, NineOpens()) && s.vault == OpenedVault(NetOf(fdc), NineOpens())
    requires (rid == 1 && p == FIRST) || (rid == 2 && p == SECOND)
    ensures Allowed(NetOf(fdc), s, p)
  {
    ReceiverIsForeign();
    hide EncodeAddress, DecodeAddress, AddressOfKey, Receiver;
    assert NetOf(fdc).crypto.decrypt(p.ciphertext) == Some(p.terms);
  }

  /** 80 drops reserved under a live cap of 50, and availableDrops reverting. */
  lemma LiveCapBreaks(fdc: Reports) returns (tr: Trace)
    ensures TraceOf(NetOf(fdc), CONFIG, tr) && 1 in Last(tr).system.book.treasuries
    ensures
      var t := Last(tr).system.book.treasuries[1];
      t.reservedDrops == 80 && t.policy.maxTotalDrops == 50 && AvailableDrops(Last(tr).system.book, 1) == Err(Panic)
  {
    hide TraceOf, Ready, GrantTotal, SigningTotal, Active, Allowed, InBounds, AddressOfKey;
    var tr0 := Opened(fdc);
    tr := Scenarios.LiveCapCanBreak(NetOf(fdc), CONFIG, tr0, FIRST, NARROW);
  }

  /** One confirmation accepted twice. */
  lemma ConfirmationRepeats(fdc: Reports) returns (tr: Trace, n: nat)
    ensures TraceOf(NetOf(fdc), CONFIG, tr) && n + 5 == |tr.happenings| < |tr.states|
    ensures tr.happenings[n + 2] == tr.happenings[n + 4] && tr.happenings[n + 2].Chain? && tr.happenings[n + 2].call.CallConfirmPolicy?
    ensures Perform(tr.states[n + 2].system.book, tr.states[n + 2].clock, tr.happenings[n + 2].call).Ok?
    ensures Perform(tr.states[n + 4].system.book, tr.states[n + 4].clock, tr.happenings[n + 4].call).Ok?
  {
    hide Follows, Ready, GrantTotal, SigningTotal, Active, Allowed, InBounds, AddressOfKey, Perform;
    var tr0 := Opened(fdc);
    n := |tr0.happenings|;
    tr := Scenarios.ConfirmationCanRepeat(NetOf(fdc), CONFIG, tr0, 1, NARROW);
  }

  /** Nothing pending, every instruction handled, and different policies on the two sides. */
  lemma PoliciesDisagree(fdc: Reports) returns (tr: Trace)
    ensures TraceOf(NetOf(fdc), CONFIG, tr) && Quiet(Last(tr), 1)
    ensures Last(tr).system.book.treasuries[1].policy == OTHER && Last(tr).vault.treasuries[1].policy == NARROW
  {
    hide TraceOf, Ready, GrantTotal, SigningTotal, Active, Allowed, InBounds, AddressOfKey;
    var tr0 := Opened(fdc);
    tr := Scenarios.ReorderingDisagrees(NetOf(fdc), CONFIG, tr0, 1, NARROW, OTHER);
  }

  /** One authorization granted, two payments signed. */
  lemma TwoSignatures(fdc: Reports) returns (tr: Trace)
    ensures TraceOf(NetOf(fdc), CONFIG, tr)
    ensures GrantTotal(NetOf(fdc), tr, 1) == 1 && SigningTotal(NetOf(fdc), tr, 1) == 2
  {
    hide TraceOf, Ready, GrantTotal, SigningTotal, Active, Allowed, InBounds, AddressOfKey;
    var tr0 := Opened(fdc);
    tr := Scenarios.OneGrantTwoSignatures(NetOf(fdc), CONFIG, tr0, FIRST, EARLY, LATE);
  }

  /** A ledger every four seconds. */
  function EveryFourSeconds(): nat -> nat {
    (t: nat) => 1000 + t / 4
  }

  lemma FourSecondsKeepPace()
    ensures KeepsPace(EveryFourSeconds())
  {
    forall t: nat, t': nat, k: nat | TimeFor(t, t', k) ensures EveryFourSeconds()(t) + k <= EveryFourSeconds()(t') {
      assert 1000 + t / 4 + k <= 1000 + t' / 4;
    }
  }

  lemma BoundsOf()
    ensures LastLedger(1000, 3600, 0) == 1750 && LastLedger(2800, 10801, 7201) == 3550
  {
  }

  lemma FollowsFirst(fdc: Reports, s: State)
    requires s.system.book == OpenedBook(NetOf(fdc), CONFIG, NineOpens()) && s.clock == 0
    requires Allowed(NetOf(fdc), s, SECOND) && InBounds(s, 1)
    ensures Follower(NetOf(fdc), s, FIRST, SECOND)
  {
    hide Allowed, AddressOfKey, NetOf, Terms;
    assert s.system.book.treasuries[1].policy == WIDE && s.system.book.treasuries[1].nextNonce == 1;
  }

  lemma FirstDeadline(fdc: Reports, s: State)
    requires s.system.book == OpenedBook(NetOf(fdc), CONFIG, NineOpens()) && s.clock == 0 && InBounds(s, 1)
    ensures NewRequest(s, FIRST).expiresAt == 3600 && GraceOver(s, 1) == 7201 && s.system.book.treasuries[1].policy == WIDE
  {
    hide AddressOfKey, NetOf, Terms;
  }

  /** Both payments can be made, and each is alive when it is signed. */
  lemma BothAlive(fdc: Reports, s: State)
    requires s.system.book == OpenedBook(NetOf(fdc), CONFIG, NineOpens()) && s.clock == 0 && InBounds(s, 1)
    ensures Alive(s, FIRST, EARLY, EveryFourSeconds()) && SecondAlive(s, FIRST, SECOND, LATE, EveryFourSeconds())
  {
    hide AddressOfKey, NetOf, Terms, OpenedBook, LastLedger, NewRequest, GraceOver;
    FirstDeadline(fdc, s);
    BoundsOf();
    assert EveryFourSeconds()(0) == 1000 && EveryFourSeconds()(7201) == 2800;
  }

  lemma OnlyWide(fdc: Reports, s: State)
    requires s.system.book == OpenedBook(NetOf(fdc), CONFIG, NineOpens()) && s.signings == []
    ensures OnlyPolicy(s.system.book.sent, 1, WIDE) && Carries(s, EveryFourSeconds())
  {
    hide AddressOfKey, KeepsPace;
    FourSecondsKeepPace();
  }

  /** 160 drops paid under caps that never exceeded 100, on a ledger that can execute them. */
  lemma Overspends(fdc: Reports) returns (tr: Trace, ledger: Ledger)
    ensures TraceOf(NetOf(fdc), CONFIG, tr) && Executable(Last(tr), ledger)
    ensures Tallied(Last(tr), 1, ledger.landed.Keys).spent >= 160
    ensures HighestLiveCap(NetOf(fdc), CONFIG, tr, |tr.states| - 1, 1) <= 100
  {
    hide Follows, Ready, GrantTotal, SigningTotal, Active, Allowed, AddressOfKey, Tallied, HighestLiveCap, Wired, KeepsPace, Executable,
         InBounds, Follower, Alive, SecondAlive, OnlyPolicy, Carries;
    var tr0 := Opened(fdc);
    ExampleWired(fdc);
    FollowsFirst(fdc, Last(tr0));
    BothAlive(fdc, Last(tr0));
    OnlyWide(fdc, Last(tr0));
    tr, ledger := LateProofOverspends(NetOf(fdc), CONFIG, tr0, FIRST, SECOND, EARLY, LATE, EveryFourSeconds());
  }

  /** XRPL executes the one blob the enclave signs, and FDC attests what it did. */
  ghost function Attested(): Reports {
    (txId: Bytes32) =>
      match txId
      case Sha512Half(data) => if |data| >= 4 then ReportOf(NetOf((other: Bytes32) => None), data[4..]) else None
      case _ => None
  }

  lemma AttestsTruly(blob: seq<byte>)
    ensures Attested()(TransactionId(blob)) == ReportOf(NetOf(Attested()), blob)
  {
    assert (PREFIX_TRANSACTION_ID + blob)[4..] == blob;
    hide ReadBlobAsPayment, EncodeAddress;
  }

  lemma PaidAlone(fdc: Reports, s: State, s': State, blob: seq<byte>)
    requires s.system.book == OpenedBook(NetOf(fdc), CONFIG, NineOpens()) && InBounds(s, 1) && Paid(s, s', FIRST, blob)
    ensures
      var b := s'.system.book;
      && Accepted(b, 1, blob) && b.requests[1].state == SIGNED && b.requests[1].expectedTxId == TransactionId(blob)
      && WordsDistinct(b, WordOf())
  {
    hide AddressOfKey;
  }

  /** The first payment settles. */
  lemma Settles() returns (tr: Trace)
    ensures TraceOf(NetOf(Attested()), CONFIG, tr) && IsSettled(Last(tr).system.book, 1)
  {
    hide Follows, Next, Ready, GrantTotal, SigningTotal, Active, Allowed, InBounds, AddressOfKey, Wired, ReportOf,
         IsSettled, Paid, SignedIn, WordsDistinct, Attested;
    var net := NetOf(Attested());
    var tr0 := Opened(Attested());
    ExampleWired(Attested());
    var tr1, g := PaysOnce(net, CONFIG, tr0, FIRST, EARLY);
    SignedNamed(Last(tr0), FIRST, EARLY, g);
    var blob := g.body.signedTxBlob;
    PaidAlone(Attested(), Last(tr0), Last(tr1), blob);
    LastReachable(net, CONFIG, tr1);
    SignedSettles(net, CONFIG, Last(tr1), 1, blob);
    AttestsTruly(blob);
    tr := Completion.Step(net, CONFIG, tr1, SettlingOf(net, 1, blob), 1);
  }
}
