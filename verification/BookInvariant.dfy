/** What every entry point keeps, whatever results the enclave signs: numbering, request lists,
    memo references, and above all that each treasury's reserved counter is the sum of the amounts
    it has reserved. */
module BookInvariant {
  import opened Bytes
  import opened Protocol
  import opened Books

  // ---- Sums over requests ----

  datatype Bucket = Reserving | Settled

  predicate Counts(bucket: Bucket, s: RequestState) {
    match bucket
    case Reserving => s == AUTHORIZED || s == SIGNED || s == BROADCAST || s == SETTLED
    case Settled => s == SETTLED
  }

  /** What one request contributes to a treasury's total. */
  function Share(r: Request, tid: nat, bucket: Bucket): nat {
    if r.treasuryId == tid && Counts(bucket, r.state) then r.amountDrops else 0
  }

  /** The sum of amountDrops over requests 1..n of a treasury in the bucket's states. */
  function Total(requests: map<nat, Request>, n: nat, tid: nat, bucket: Bucket): nat {
    if n == 0 then 0
    else Total(requests, n - 1, tid, bucket) + (if n in requests then Share(requests[n], tid, bucket) else 0)
  }

  lemma {:induction false} TotalBeyond(requests: map<nat, Request>, n: nat, tid: nat, bucket: Bucket, k: nat, r: Request)
    requires k > n
    ensures Total(requests[k := r], n, tid, bucket) == Total(requests, n, tid, bucket)
  {
    if n > 0 {
      TotalBeyond(requests, n - 1, tid, bucket, k, r);
    }
  }

  lemma {:induction false} TotalUpdate(requests: map<nat, Request>, n: nat, tid: nat, bucket: Bucket, k: nat, r: Request)
    requires 1 <= k <= n && k in requests
    ensures Total(requests[k := r], n, tid, bucket)
         == Total(requests, n, tid, bucket) - Share(requests[k], tid, bucket) + Share(r, tid, bucket)
  {
    if k == n {
      TotalBeyond(requests, n - 1, tid, bucket, k, r);
    } else {
      TotalUpdate(requests, n - 1, tid, bucket, k, r);
    }
  }

  lemma {:induction false} ShareWithinTotal(requests: map<nat, Request>, n: nat, tid: nat, bucket: Bucket, k: nat)
    requires 1 <= k <= n && k in requests
    ensures Share(requests[k], tid, bucket) <= Total(requests, n, tid, bucket)
  {
    if k < n {
      ShareWithinTotal(requests, n - 1, tid, bucket, k);
    }
  }

  lemma {:induction false} SettledWithinReserved(requests: map<nat, Request>, n: nat, tid: nat)
    ensures Total(requests, n, tid, Settled) <= Total(requests, n, tid, Reserving)
  {
    if n > 0 {
      SettledWithinReserved(requests, n - 1, tid);
    }
  }

  lemma {:induction false} TotalOfNone(requests: map<nat, Request>, n: nat, tid: nat, bucket: Bucket)
    requires forall k :: k in requests ==> requests[k].treasuryId != tid
    ensures Total(requests, n, tid, bucket) == 0
  {
    if n > 0 {
      TotalOfNone(requests, n - 1, tid, bucket);
    }
  }

  // ---- The invariant ----

  ghost predicate Numbered(b: Book) {
    && (forall tid :: tid in b.treasuries <==> 1 <= tid <= b.treasuryCount)
    && (forall rid :: rid in b.requests <==> 1 <= rid <= b.requestCount)
  }

  /** Budget conservation. */
  ghost predicate Conserved(b: Book, tid: nat)
    requires tid in b.treasuries
  {
    b.treasuries[tid].reservedDrops == Total(b.requests, b.requestCount, tid, Reserving)
  }

  ghost predicate IsPolicyHash(h: Bytes32) {
    h.Keccak? && h.preimage.PolicyEncoding?
  }

  ghost predicate TreasuryOk(b: Book, tid: nat)
    requires tid in b.treasuries
  {
    var t := b.treasuries[tid];
    && ValidPolicy(t.policy) && t.policyCommitment == PolicyCommitment(t.policy)
    && PendingOk(t.pendingPolicyCommitment)
    && (t.bound ==> t.xrplAddressHash == HashText(t.xrplAddress))
    && t.nextNonce == |RequestsOf(b, tid)| + 1
    && (!t.bound ==> RequestsOf(b, tid) == [])
  }

  /** An empty slot, or the commitment of a valid policy. */
  ghost predicate PendingOk(h: Bytes32) {
    h == Zero || (IsPolicyHash(h) && ValidPolicy(h.preimage.policy))
  }

  /** Entry i of a treasury's request list names a request of that treasury with nonce i + 1. */
  ghost predicate EntryOk(b: Book, tid: nat, i: nat) {
    var ids := RequestsOf(b, tid);
    i < |ids| ==> ids[i] in b.requests && b.requests[ids[i]].treasuryId == tid && b.requests[ids[i]].nonce == i + 1
  }

  /** The list of a treasury's requests: ids ascending, nonces counting up from 1. */
  ghost predicate ListOk(b: Book, tid: nat) {
    var ids := RequestsOf(b, tid);
    && (forall i: nat {:trigger EntryOk(b, tid, i)} :: EntryOk(b, tid, i))
    && (forall i: nat, j: nat {:trigger EntryOk(b, tid, i), EntryOk(b, tid, j)} :: i < j < |ids| ==> ids[i] < ids[j])
  }

  ghost predicate RequestOk(b: Book, rid: nat)
    requires rid in b.requests
  {
    var r := b.requests[rid];
    && r.state != NONE
    && r.treasuryId in b.treasuries
    && b.treasuries[r.treasuryId].bound
    && 1 <= r.nonce <= |RequestsOf(b, r.treasuryId)|
    && RequestsOf(b, r.treasuryId)[r.nonce - 1] == rid
    && r.memoRef == MemoRef(b.config.chainId, b.config.self, r.treasuryId, rid, r.nonce)
    && r.payloadHash.Keccak? && r.payloadHash.preimage.Data?
    && r.createdAt < r.expiresAt <= r.createdAt + MAX_REQUEST_TTL
  }

  ghost predicate Inv(b: Book) {
    && Numbered(b)
    && b.treasuryRequests.Keys <= b.treasuries.Keys
    && (forall tid :: tid in b.treasuries ==> TreasuryOk(b, tid) && Conserved(b, tid) && ListOk(b, tid))
    && (forall rid :: rid in b.requests ==> RequestOk(b, rid))
  }

  lemma InitialInv(config: Config)
    ensures Inv(InitialBook(config))
  {
  }

  // ---- Frames: what one element's facts depend on ----

  /** The identity of a request: the fields no entry point ever changes. */
  ghost predicate SameIdentity(r: Request, s: Request) {
    && s.treasuryId == r.treasuryId && s.requester == r.requester && s.nonce == r.nonce
    && s.createdAt == r.createdAt && s.expiresAt == r.expiresAt
    && s.payloadHash == r.payloadHash && s.memoRef == r.memoRef
  }

  /** Requests stay, keeping their identity, and request lists only grow. */
  ghost predicate Grows(b: Book, b': Book) {
    && b'.config == b.config
    && (forall rid :: rid in b.requests ==> rid in b'.requests && SameIdentity(b.requests[rid], b'.requests[rid]))
    && (forall tid :: tid in b.treasuries ==> tid in b'.treasuries && RequestsOf(b, tid) <= RequestsOf(b', tid)
                                              && (b.treasuries[tid].bound ==> b'.treasuries[tid].bound))
  }

  lemma ListFrame(b: Book, b': Book, tid: nat)
    requires Grows(b, b') && ListOk(b, tid) && RequestsOf(b', tid) == RequestsOf(b, tid)
    ensures ListOk(b', tid)
  {
    forall i: nat ensures EntryOk(b', tid, i) {
      assert EntryOk(b, tid, i);
    }
    var ids := RequestsOf(b, tid);
    forall i: nat, j: nat | i < j < |ids| ensures ids[i] < ids[j] {
      assert EntryOk(b, tid, i) && EntryOk(b, tid, j);
    }
  }

  lemma RequestFrame(b: Book, b': Book, rid: nat)
    requires Grows(b, b') && rid in b.requests && RequestOk(b, rid) && b'.requests[rid].state != NONE
    ensures RequestOk(b', rid)
  {
  }

  lemma TreasuryFrame(b: Book, b': Book, tid: nat)
    requires tid in b.treasuries && TreasuryOk(b, tid)
    requires tid in b'.treasuries && RequestsOf(b', tid) == RequestsOf(b, tid)
    requires b'.treasuries[tid] == b.treasuries[tid].(reservedDrops := b'.treasuries[tid].reservedDrops)
    ensures TreasuryOk(b', tid)
  {
  }

  /** The invariant from its parts, when no treasury or request is new. */
  lemma InvFrame(b: Book, b': Book)
    requires Inv(b) && Grows(b, b')
    requires b'.treasuries.Keys == b.treasuries.Keys && b'.requests.Keys == b.requests.Keys
    requires b'.treasuryCount == b.treasuryCount && b'.requestCount == b.requestCount
    requires b'.treasuryRequests == b.treasuryRequests
    requires forall tid :: tid in b.treasuries ==> TreasuryOk(b', tid) && Conserved(b', tid)
    requires forall rid :: rid in b.requests ==> b'.requests[rid].state != NONE
    ensures Inv(b')
  {
    hide TreasuryOk, Conserved, ListOk, RequestOk, Grows;
    forall tid | tid in b'.treasuries ensures TreasuryOk(b', tid) && Conserved(b', tid) && ListOk(b', tid) {
      ListFrame(b, b', tid);
    }
    forall rid | rid in b'.requests ensures RequestOk(b', rid) {
      RequestFrame(b, b', rid);
    }
  }

  // ---- Updates that keep it ----

  lemma PutGrows(b: Book, rid: nat, r: Request, reserved: nat)
    requires rid in b.requests && SameIdentity(b.requests[rid], r) && r.treasuryId in b.treasuries
    ensures Grows(b, Put(b, rid, r, reserved))
  {
  }

  lemma PutConserves(b: Book, rid: nat, r: Request, reserved: nat, tid: nat)
    requires Numbered(b) && rid in b.requests && SameIdentity(b.requests[rid], r) && r.treasuryId in b.treasuries
    requires tid in b.treasuries && Conserved(b, tid)
    requires reserved == b.treasuries[r.treasuryId].reservedDrops
                         - Share(b.requests[rid], r.treasuryId, Reserving) + Share(r, r.treasuryId, Reserving)
    ensures Conserved(Put(b, rid, r, reserved), tid)
  {
    hide Total;
    TotalUpdate(b.requests, b.requestCount, tid, Reserving, rid, r);
  }

  lemma PutKeepsInv(b: Book, rid: nat, r: Request, reserved: nat)
    requires Inv(b) && rid in b.requests
    requires SameIdentity(b.requests[rid], r) && r.state != NONE
    requires r.treasuryId in b.treasuries
    requires reserved == b.treasuries[r.treasuryId].reservedDrops
                         - Share(b.requests[rid], r.treasuryId, Reserving) + Share(r, r.treasuryId, Reserving)
    ensures Inv(Put(b, rid, r, reserved))
  {
    hide TreasuryOk, Conserved, ListOk, RequestOk, Grows, SameIdentity, Share;
    var b' := Put(b, rid, r, reserved);
    PutGrows(b, rid, r, reserved);
    forall tid | tid in b.treasuries ensures TreasuryOk(b', tid) && Conserved(b', tid) {
      TreasuryFrame(b, b', tid);
      PutConserves(b, rid, r, reserved, tid);
    }
    forall k | k in b.requests ensures b'.requests[k].state != NONE {
      StateExists(b, k);
    }
    InvFrame(b, b');
  }

  /** Rewriting a request outside the reserved total's view leaves the treasuries as they are. */
  lemma RewriteKeepsInv(b: Book, rid: nat, r: Request)
    requires Inv(b) && rid in b.requests
    requires SameIdentity(b.requests[rid], r) && r.state != NONE
    requires Share(r, r.treasuryId, Reserving) == Share(b.requests[rid], r.treasuryId, Reserving)
    ensures Inv(b.(requests := b.requests[rid := r]))
  {
    RequestHome(b, rid);
    hide Inv;
    PutBackIsRewrite(b, rid, r);
    PutKeepsInv(b, rid, r, b.treasuries[r.treasuryId].reservedDrops);
  }

  lemma PutBackIsRewrite(b: Book, rid: nat, r: Request)
    requires r.treasuryId in b.treasuries
    ensures Put(b, rid, r, b.treasuries[r.treasuryId].reservedDrops) == b.(requests := b.requests[rid := r])
  {
    var t := b.treasuries[r.treasuryId];
    assert t.(reservedDrops := t.reservedDrops) == t;
    assert b.treasuries[r.treasuryId := t] == b.treasuries;
  }

  lemma RequestHome(b: Book, rid: nat)
    requires Inv(b) && rid in b.requests
    ensures b.requests[rid].state != NONE
    ensures b.requests[rid].treasuryId in b.treasuries && b.treasuries[b.requests[rid].treasuryId].bound
  {
    StateExists(b, rid);
  }

  ghost predicate TreasuryUpdate(t: Treasury, t': Treasury) {
    && t'.reservedDrops == t.reservedDrops && t'.nextNonce == t.nextNonce
    && ValidPolicy(t'.policy) && t'.policyCommitment == PolicyCommitment(t'.policy)
    && PendingOk(t'.pendingPolicyCommitment)
    && (t'.bound ==> t'.xrplAddressHash == HashText(t'.xrplAddress))
    && (t.bound ==> t'.bound)
  }

  lemma TreasuryUpdateOk(b: Book, tid: nat, t: Treasury, sent: seq<Instruction>, k: nat)
    requires tid in b.treasuries && TreasuryUpdate(b.treasuries[tid], t)
    requires k in b.treasuries && TreasuryOk(b, k) && Conserved(b, k)
    ensures
      var b' := b.(treasuries := b.treasuries[tid := t], sent := sent);
      TreasuryOk(b', k) && Conserved(b', k)
  {
    hide Total;
  }

  lemma TreasuryUpdateGrows(b: Book, tid: nat, t: Treasury, sent: seq<Instruction>)
    requires tid in b.treasuries && TreasuryUpdate(b.treasuries[tid], t)
    ensures Grows(b, b.(treasuries := b.treasuries[tid := t], sent := sent))
  {
  }

  lemma TreasuryUpdateKeepsInv(b: Book, tid: nat, t: Treasury, sent: seq<Instruction>)
    requires Inv(b) && tid in b.treasuries && TreasuryUpdate(b.treasuries[tid], t)
    ensures Inv(b.(treasuries := b.treasuries[tid := t], sent := sent))
  {
    hide TreasuryOk, Conserved, ListOk, RequestOk, Grows, SameIdentity, TreasuryUpdate;
    var b' := b.(treasuries := b.treasuries[tid := t], sent := sent);
    TreasuryUpdateGrows(b, tid, t, sent);
    forall k | k in b.treasuries ensures TreasuryOk(b', k) && Conserved(b', k) {
      TreasuryUpdateOk(b, tid, t, sent, k);
    }
    forall k | k in b.requests ensures b'.requests[k].state != NONE {
      StateExists(b, k);
    }
    InvFrame(b, b');
  }

  lemma StateExists(b: Book, rid: nat)
    requires rid in b.requests && RequestOk(b, rid)
    ensures b.requests[rid].state != NONE
    ensures b.requests[rid].treasuryId in b.treasuries && b.treasuries[b.requests[rid].treasuryId].bound
  {
  }

  lemma FlagsKeepInv(b: Book, paused: bool, sent: seq<Instruction>)
    requires Inv(b)
    ensures Inv(b.(paused := paused, sent := sent))
  {
    hide Total;
    var b' := b.(paused := paused, sent := sent);
    assert Grows(b, b');
    forall k | k in b.treasuries ensures TreasuryOk(b', k) && Conserved(b', k) {
      TreasuryFrame(b, b', k);
    }
    hide TreasuryOk, Conserved, ListOk, RequestOk, Grows;
    forall k | k in b.requests ensures b'.requests[k].state != NONE {
      StateExists(b, k);
    }
    InvFrame(b, b');
  }

  lemma NoRequestsYet(b: Book, tid: nat)
    requires Inv(b) && tid !in b.treasuries
    ensures RequestsOf(b, tid) == []
    ensures forall rid :: rid in b.requests ==> b.requests[rid].treasuryId != tid
  {
    forall rid | rid in b.requests ensures b.requests[rid].treasuryId != tid {
      StateExists(b, rid);
    }
  }

  lemma CreateTreasuryGrows(b: Book, sender: Address, p: Policy)
    requires Inv(b) && CreateTreasury(b, sender, p).Ok?
    ensures Grows(b, CreateTreasury(b, sender, p).value)
  {
    hide TreasuryOk, Conserved, ListOk, RequestOk;
  }

  lemma NewTreasuryOk(b: Book, sender: Address, p: Policy)
    requires Inv(b) && CreateTreasury(b, sender, p).Ok?
    ensures
      var b' := CreateTreasury(b, sender, p).value;
      b'.treasuryCount in b'.treasuries && TreasuryOk(b', b'.treasuryCount) && Conserved(b', b'.treasuryCount)
      && ListOk(b', b'.treasuryCount)
  {
    hide Total;
    NoRequestsYet(b, b.treasuryCount + 1);
    TotalOfNone(b.requests, b.requestCount, b.treasuryCount + 1, Reserving);
  }

  /** The invariant again from its parts, when one treasury or one request is new. */
  lemma InvFromParts(b: Book, b': Book)
    requires Inv(b) && Grows(b, b') && Numbered(b') && b'.treasuryRequests.Keys <= b'.treasuries.Keys
    requires forall tid :: tid in b'.treasuries ==> TreasuryOk(b', tid) && Conserved(b', tid) && ListOk(b', tid)
    requires forall rid :: rid in b.requests ==> b'.requests[rid].state != NONE
    requires forall rid :: rid in b'.requests && rid !in b.requests ==> RequestOk(b', rid)
    ensures Inv(b')
  {
    hide TreasuryOk, Conserved, ListOk, RequestOk, Grows, Numbered;
    forall k | k in b'.requests ensures RequestOk(b', k) {
      if k in b.requests {
        RequestFrame(b, b', k);
      }
    }
  }

  lemma CreateTreasuryKeepsOne(b: Book, sender: Address, p: Policy, k: nat)
    requires Inv(b) && CreateTreasury(b, sender, p).Ok?
    ensures
      var b' := CreateTreasury(b, sender, p).value;
      k in b'.treasuries ==> TreasuryOk(b', k) && Conserved(b', k) && ListOk(b', k)
  {
    var b' := CreateTreasury(b, sender, p).value;
    CreateTreasuryGrows(b, sender, p);
    NewTreasuryOk(b, sender, p);
    hide TreasuryOk, ListOk, RequestOk, Grows, Total;
    if k in b.treasuries {
      TreasuryFrame(b, b', k);
      ListFrame(b, b', k);
    }
  }

  lemma StatesExist(b: Book)
    requires Inv(b)
    ensures forall rid :: rid in b.requests ==> b.requests[rid].state != NONE
  {
    hide TreasuryOk, Conserved, ListOk, RequestOk;
    forall rid | rid in b.requests ensures b.requests[rid].state != NONE {
      StateExists(b, rid);
    }
  }

  lemma CreateTreasuryKeepsInv(b: Book, sender: Address, p: Policy)
    requires Inv(b) && CreateTreasury(b, sender, p).Ok?
    ensures Inv(CreateTreasury(b, sender, p).value)
  {
    var b' := CreateTreasury(b, sender, p).value;
    CreateTreasuryGrows(b, sender, p);
    StatesExist(b);
    hide TreasuryOk, Conserved, ListOk, RequestOk, Grows;
    forall k | k in b'.treasuries ensures TreasuryOk(b', k) && Conserved(b', k) && ListOk(b', k) {
      CreateTreasuryKeepsOne(b, sender, p, k);
    }
    InvFromParts(b, b');
  }

  lemma ListGrows(b: Book, b': Book, tid: nat, rid: nat)
    requires Grows(b, b') && ListOk(b, tid)
    requires forall k :: k in b.requests ==> k < rid
    requires rid in b'.requests && RequestsOf(b', tid) == RequestsOf(b, tid) + [rid]
    requires b'.requests[rid].treasuryId == tid && b'.requests[rid].nonce == |RequestsOf(b, tid)| + 1
    ensures ListOk(b', tid)
  {
    var ids := RequestsOf(b, tid);
    forall i: nat ensures EntryOk(b', tid, i) {
      assert EntryOk(b, tid, i);
    }
    forall i: nat, j: nat | i < j < |ids| + 1 ensures (ids + [rid])[i] < (ids + [rid])[j] {
      assert EntryOk(b, tid, i) && EntryOk(b, tid, j);
    }
  }

  lemma NewShare(r: Request, tid: nat)
    requires r.state == CREATED
    ensures Share(r, tid, Reserving) == 0
  {
  }

  lemma TreasuryNonce(b: Book, tid: nat)
    requires Inv(b) && tid in b.treasuries
    ensures b.treasuries[tid].nextNonce == |RequestsOf(b, tid)| + 1
    ensures 0 < b.treasuries[tid].policy.requestTtlSeconds <= MAX_REQUEST_TTL
  {
    hide Numbered, Conserved, ListOk, RequestOk;
  }

  lemma NewRequestOk(b: Book, now: nat, sender: Address, tid: nat, payload: seq<byte>)
    requires Inv(b) && CreatePaymentRequest(b, now, sender, tid, payload).Ok?
    ensures
      var b' := CreatePaymentRequest(b, now, sender, tid, payload).value;
      b'.requestCount in b'.requests && RequestOk(b', b'.requestCount)
  {
    hide Inv, ListOk, Conserved, TreasuryOk, Numbered;
    TreasuryNonce(b, tid);
    var b' := CreatePaymentRequest(b, now, sender, tid, payload).value;
    assert RequestsOf(b', tid) == RequestsOf(b, tid) + [b'.requestCount];
  }

  lemma NewRequestGrows(b: Book, now: nat, sender: Address, tid: nat, payload: seq<byte>)
    requires Inv(b) && CreatePaymentRequest(b, now, sender, tid, payload).Ok?
    ensures Grows(b, CreatePaymentRequest(b, now, sender, tid, payload).value)
  {
    hide TreasuryOk, Conserved, ListOk, RequestOk;
  }

  lemma NewRequestTreasuryOk(b: Book, now: nat, sender: Address, tid: nat, payload: seq<byte>, k: nat)
    requires CreatePaymentRequest(b, now, sender, tid, payload).Ok? && k in b.treasuries && TreasuryOk(b, k)
    ensures
      var b' := CreatePaymentRequest(b, now, sender, tid, payload).value;
      k in b'.treasuries && TreasuryOk(b', k)
  {
    var b' := CreatePaymentRequest(b, now, sender, tid, payload).value;
    assert RequestsOf(b', k) == if k == tid then RequestsOf(b, tid) + [b'.requestCount] else RequestsOf(b, k);
  }

  lemma NewRequestConserves(b: Book, now: nat, sender: Address, tid: nat, payload: seq<byte>, k: nat)
    requires CreatePaymentRequest(b, now, sender, tid, payload).Ok? && k in b.treasuries && Conserved(b, k)
    ensures
      var b' := CreatePaymentRequest(b, now, sender, tid, payload).value;
      k in b'.treasuries && Conserved(b', k)
  {
    hide Share;
    var b' := CreatePaymentRequest(b, now, sender, tid, payload).value;
    TotalBeyond(b.requests, b.requestCount, k, Reserving, b'.requestCount, b'.requests[b'.requestCount]);
    NewShare(b'.requests[b'.requestCount], k);
  }

  lemma NewRequestList(b: Book, now: nat, sender: Address, tid: nat, payload: seq<byte>)
    requires Inv(b) && CreatePaymentRequest(b, now, sender, tid, payload).Ok?
    ensures ListOk(CreatePaymentRequest(b, now, sender, tid, payload).value, tid)
  {
    NewRequestGrows(b, now, sender, tid, payload);
    assert TreasuryOk(b, tid);
    hide ListOk, RequestOk, Conserved, Grows;
    ListGrows(b, CreatePaymentRequest(b, now, sender, tid, payload).value, tid, b.requestCount + 1);
  }

  lemma NewRequestKeepsList(b: Book, now: nat, sender: Address, tid: nat, payload: seq<byte>, k: nat)
    requires Inv(b) && CreatePaymentRequest(b, now, sender, tid, payload).Ok? && k in b.treasuries
    ensures ListOk(CreatePaymentRequest(b, now, sender, tid, payload).value, k)
  {
    hide TreasuryOk, Conserved, ListOk, RequestOk, Grows;
    var b' := CreatePaymentRequest(b, now, sender, tid, payload).value;
    if k == tid {
      NewRequestList(b, now, sender, tid, payload);
    } else {
      NewRequestGrows(b, now, sender, tid, payload);
      ListFrame(b, b', k);
    }
  }

  lemma NewRequestNumbered(b: Book, now: nat, sender: Address, tid: nat, payload: seq<byte>)
    requires Inv(b) && CreatePaymentRequest(b, now, sender, tid, payload).Ok?
    ensures
      var b' := CreatePaymentRequest(b, now, sender, tid, payload).value;
      && Numbered(b') && b'.treasuries.Keys == b.treasuries.Keys
      && b'.treasuryRequests.Keys <= b'.treasuries.Keys
      && (forall rid :: rid in b'.requests && rid !in b.requests ==> rid == b'.requestCount)
      && (forall rid :: rid in b.requests ==> rid in b'.requests && b'.requests[rid] == b.requests[rid])
  {
    hide TreasuryOk, Conserved, ListOk, RequestOk;
  }

  lemma CreatePaymentRequestKeepsInv(b: Book, now: nat, sender: Address, tid: nat, payload: seq<byte>)
    requires Inv(b) && CreatePaymentRequest(b, now, sender, tid, payload).Ok?
    ensures Inv(CreatePaymentRequest(b, now, sender, tid, payload).value)
  {
    NewRequestNumbered(b, now, sender, tid, payload);
    NewRequestOk(b, now, sender, tid, payload);
    NewRequestGrows(b, now, sender, tid, payload);
    StatesExist(b);
    hide TreasuryOk, Conserved, ListOk, RequestOk, Grows, Numbered, CreatePaymentRequest;
    var b' := CreatePaymentRequest(b, now, sender, tid, payload).value;
    forall k | k in b'.treasuries ensures TreasuryOk(b', k) && Conserved(b', k) && ListOk(b', k) {
      NewRequestTreasuryOk(b, now, sender, tid, payload, k);
      NewRequestConserves(b, now, sender, tid, payload, k);
      NewRequestKeepsList(b, now, sender, tid, payload, k);
    }
    InvFromParts(b, b');
  }

  lemma ReleaseCreatedKeepsInv(b: Book, rid: nat, final: RequestState)
    requires Inv(b) && rid in b.requests && b.requests[rid].state == CREATED
    requires final != NONE && !Counts(Reserving, final)
    ensures Release(b, rid, final).Ok? && Inv(Release(b, rid, final).value)
  {
    hide Inv;
    RewriteKeepsInv(b, rid, b.requests[rid].(state := final));
  }

  lemma ReleasedShare(r: Request, final: RequestState)
    requires Counts(Reserving, r.state) && final != NONE && !Counts(Reserving, final)
    ensures SameIdentity(r, r.(state := final))
    ensures Share(r, r.treasuryId, Reserving) == r.amountDrops && Share(r.(state := final), r.treasuryId, Reserving) == 0
  {
  }

  lemma ReleasePuts(b: Book, rid: nat, final: RequestState)
    requires rid in b.requests && b.requests[rid].state != CREATED && Release(b, rid, final).Ok?
    ensures
      var r := b.requests[rid];
      && r.treasuryId in b.treasuries && r.amountDrops <= b.treasuries[r.treasuryId].reservedDrops
      && Release(b, rid, final).value
         == Put(b, rid, r.(state := final), b.treasuries[r.treasuryId].reservedDrops - r.amountDrops)
  {
    hide Put;
  }

  lemma ReleaseReservedKeepsInv(b: Book, rid: nat, final: RequestState)
    requires Inv(b) && rid in b.requests && Release(b, rid, final).Ok?
    requires Counts(Reserving, b.requests[rid].state)
    requires final != NONE && !Counts(Reserving, final)
    ensures Inv(Release(b, rid, final).value)
  {
    hide Inv, Numbered, Put, Share, Total, SameIdentity, Release;
    ReleasePuts(b, rid, final);
    ReleasedShare(b.requests[rid], final);
    var r := b.requests[rid];
    PutKeepsInv(b, rid, r.(state := final), b.treasuries[r.treasuryId].reservedDrops - r.amountDrops);
  }

  lemma ReleaseKeepsInv(b: Book, rid: nat, final: RequestState)
    requires Inv(b) && rid in b.requests && Release(b, rid, final).Ok?
    requires b.requests[rid].state == CREATED || Counts(Reserving, b.requests[rid].state)
    requires final != NONE && !Counts(Reserving, final)
    ensures Inv(Release(b, rid, final).value)
  {
    hide Inv, Put, Release;
    if b.requests[rid].state == CREATED {
      ReleaseCreatedKeepsInv(b, rid, final);
    } else {
      ReleaseReservedKeepsInv(b, rid, final);
    }
  }

  lemma SubmitAuthorizationKeepsInv(b: Book, now: nat, res: TeeResult)
    requires Inv(b) && SubmitAuthorization(b, now, res).Ok?
    ensures Inv(SubmitAuthorization(b, now, res).value)
  {
    hide Inv;
    var body := res.body;
    var r := b.requests[body.requestId];
    PutKeepsInv(b, body.requestId,
                r.(amountDrops := body.amountDrops, destinationHash := body.destinationHash, state := AUTHORIZED),
                b.treasuries[r.treasuryId].reservedDrops + body.amountDrops);
  }

  function TouchedTreasury(c: Call): nat {
    match c
    case CallBind(res) => if res.body.Bind? then res.body.treasuryId else 0
    case CallRequestPolicyUpdate(_, tid, _) => tid
    case CallConfirmPolicy(res) => if res.body.Confirm? then res.body.treasuryId else 0
    case CallSetTreasuryPaused(_, tid, _) => tid
    case _ => 0
  }

  lemma TreasuryCallUpdates(b: Book, now: nat, c: Call, tid: nat)
    requires Perform(b, now, c).Ok? && tid == TouchedTreasury(c)
    requires c.CallBind? || c.CallRequestPolicyUpdate? || c.CallConfirmPolicy? || c.CallSetTreasuryPaused?
    requires tid in b.treasuries ==> TreasuryOk(b, tid)
    ensures
      var b' := After(b, now, c);
      && tid in b.treasuries && tid in b'.treasuries
      && TreasuryUpdate(b.treasuries[tid], b'.treasuries[tid])
      && b' == b.(treasuries := b.treasuries[tid := b'.treasuries[tid]], sent := b'.sent)
  {
  }

  lemma TreasuryCallKeepsInv(b: Book, now: nat, c: Call)
    requires Inv(b) && Perform(b, now, c).Ok?
    requires c.CallBind? || c.CallRequestPolicyUpdate? || c.CallConfirmPolicy? || c.CallSetTreasuryPaused?
    ensures Inv(After(b, now, c))
  {
    hide TreasuryOk, ListOk, RequestOk, Conserved, TreasuryUpdate, Perform;
    var tid, b' := TouchedTreasury(c), After(b, now, c);
    TreasuryCallUpdates(b, now, c, tid);
    TreasuryUpdateKeepsInv(b, tid, b'.treasuries[tid], b'.sent);
  }

  lemma RequestCallKeepsInv(b: Book, now: nat, c: Call)
    requires Inv(b) && Perform(b, now, c).Ok?
    requires c.CallSubmitSignedPayment? || c.CallReportBroadcast? || c.CallMarkSettled?
    ensures Inv(After(b, now, c))
  {
    hide Inv;
    var rid := match c
      case CallSubmitSignedPayment(res) => res.body.requestId
      case CallReportBroadcast(rid, _) => rid
      case CallMarkSettled(_, rid, _) => rid;
    var b' := After(b, now, c);
    RewriteKeepsInv(b, rid, b'.requests[rid]);
    assert b' == b.(requests := b.requests[rid := b'.requests[rid]]);
  }

  lemma ReleasingCallKeepsInv(b: Book, now: nat, c: Call)
    requires Inv(b) && Perform(b, now, c).Ok?
    requires c.CallCancelRequest? || c.CallExpireRequest? || c.CallSubmitFailure?
    ensures Inv(After(b, now, c))
  {
    hide Inv;
    match c
    case CallCancelRequest(_, rid) => ReleaseKeepsInv(b, rid, CANCELLED);
    case CallExpireRequest(rid) => ReleaseKeepsInv(b, rid, EXPIRED);
    case CallSubmitFailure(res) => ReleaseKeepsInv(b, res.body.requestId, FAILED);
  }

  lemma FlagCallKeepsInv(b: Book, now: nat, c: Call)
    requires Inv(b) && Perform(b, now, c).Ok?
    requires c.CallSetPaused? || c.CallRequestSignature?
    ensures Inv(After(b, now, c))
  {
    hide Inv;
    var b' := After(b, now, c);
    FlagsKeepInv(b, b'.paused, b'.sent);
    assert b' == b.(paused := b'.paused, sent := b'.sent);
  }

  /** Every call of every entry point keeps the invariant. */
  lemma CallKeepsInv(b: Book, now: nat, c: Call)
    requires Inv(b)
    ensures Inv(After(b, now, c))
  {
    if Perform(b, now, c).Ok? {
      hide Inv, CreateTreasury, CreatePaymentRequest, SubmitAuthorization, SubmitSignedPayment, ReportBroadcast;
      hide MarkSettled, CancelRequest, ExpireRequest, SubmitFailure, RequestSignature, SetPaused;
      match c
      case CallCreateTreasury(sender, p) => CreateTreasuryKeepsInv(b, sender, p);
      case CallCreatePaymentRequest(sender, tid, payload) => CreatePaymentRequestKeepsInv(b, now, sender, tid, payload);
      case CallSubmitAuthorization(res) => SubmitAuthorizationKeepsInv(b, now, res);
      case CallSetPaused(_, _) => FlagCallKeepsInv(b, now, c);
      case CallRequestSignature(_, _) => FlagCallKeepsInv(b, now, c);
      case CallSubmitSignedPayment(_) => RequestCallKeepsInv(b, now, c);
      case CallReportBroadcast(_, _) => RequestCallKeepsInv(b, now, c);
      case CallMarkSettled(_, _, _) => RequestCallKeepsInv(b, now, c);
      case CallCancelRequest(_, _) => ReleasingCallKeepsInv(b, now, c);
      case CallExpireRequest(_) => ReleasingCallKeepsInv(b, now, c);
      case CallSubmitFailure(_) => ReleasingCallKeepsInv(b, now, c);
      case _ => TreasuryCallKeepsInv(b, now, c);
    }
  }

  /** No release can underflow: a request that holds a reservation can always be released. */
  lemma ReleaseNeverUnderflows(b: Book, rid: nat, final: RequestState)
    requires Inv(b) && rid in b.requests
    requires b.requests[rid].state == CREATED || Counts(Reserving, b.requests[rid].state)
    ensures Release(b, rid, final).Ok?
  {
    var r := b.requests[rid];
    assert RequestOk(b, rid) && TreasuryOk(b, r.treasuryId);
    ShareWithinTotal(b.requests, b.requestCount, r.treasuryId, Reserving, rid);
  }
}
