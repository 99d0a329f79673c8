/** The result relay's scan loop (services/cmd/result-relay/main.go) as functions of what it has in
    memory and what the proxy and the chain answer, and what the loop guarantees.

    The chain is one fixed sequence of controller logs; a fetch returns those in the range it asks
    for. `last` and `submitted` are history: each log's latest verdict, and the action ids whose
    submission the chain accepted, in order. */
module RelayState {
  import opened Wrappers
  import Books

  // ---- What became of a submission ----

  /** The four ends of `Chain.Send` (services/internal/bridgesafe/client.go): the call was mined and
      succeeded; the node answered the gas estimate that the call reverts, with this controller error;
      the estimate failed for another reason, an unreachable node for one; some other step failed, with
      this message. */
  datatype Sent =
    | Accepted
    | Refused(error: Books.Error, cause: string)
    | EstimateFailed(cause: string)
    | SendFailed(message: string)

  const WOULD_REVERT := "would revert"

  /** The error text the relay sees. Every failed estimate is reported in the same words. */
  function Message(entry: string, sent: Sent): string {
    match sent
    case Accepted => ""
    case Refused(_, cause) => "estimating gas for " + entry + " (the call " + WOULD_REVERT + "): " + cause
    case EstimateFailed(cause) => "estimating gas for " + entry + " (the call " + WOULD_REVERT + "): " + cause
    case SendFailed(message) => message
  }

  predicate HasAt(s: string, part: string, i: nat) {
    i + |part| <= |s| && s[i..i + |part|] == part
  }

  predicate Contains(s: string, part: string) {
    exists i :: 0 <= i <= |s| && HasAt(s, part, i)
  }

  /** The relay's test for "this result is not new": one of five markers in the text. */
  predicate IsAlreadyApplied(message: string) {
    || Contains(message, WOULD_REVERT) || Contains(message, "WrongState") || Contains(message, "TreasuryAlreadyBound")
    || Contains(message, "NoPendingPolicy") || Contains(message, "ResultBindingMismatch")
  }

  lemma ContainsPart(before: string, part: string, after: string)
    ensures Contains(before + part + after, part)
  {
    assert HasAt(before + part + after, part, |before|);
  }

  /** The first marker is in the words of every failed estimate, whatever made it fail. */
  lemma EveryFailedEstimateMatches(entry: string, sent: Sent)
    requires sent.Refused? || sent.EstimateFailed?
    ensures IsAlreadyApplied(Message(entry, sent))
  {
    var before, after := "estimating gas for " + entry + " (the call ", "): " + sent.cause;
    ContainsPart(before, WOULD_REVERT, after);
    assert Message(entry, sent) == before + WOULD_REVERT + after;
  }

  /** Whether the relay takes a failed submission for one applied before. */
  predicate TakenForApplied(entry: string, sent: Sent) {
    !sent.Accepted? && IsAlreadyApplied(Message(entry, sent))
  }

  /** What asking for one action's result, and submitting it to a method, comes to. */
  datatype Answer = NotReady | ProxyFailure | Result(entry: string, sent: Sent)

  /** One handling of a log: when the handler noted the action, when it asked how long it had waited. */
  datatype Exchange = Exchange(noted: nat, checked: nat, answer: Answer)

  /** `handled` says a handler is registered for the log's topic; an action is missing when the log's
      data does not decode. */
  datatype Log = Log(block: nat, handled: bool, action: Option<nat>)

  datatype Verdict = Finished | Waiting | Failed

  datatype Memory = Memory(done: set<nat>, firstSeen: map<nat, nat>, last: map<nat, Verdict>, submitted: seq<nat>)

  const BLANK := Memory({}, map[], map[], [])

  /** One log handled: the new memory and the verdict on it. */
  datatype Step = Step(memory: Memory, verdict: Verdict)

  function Note(m: Memory, id: nat, noted: nat): Memory {
    if id in m.firstSeen then m else m.(firstSeen := m.firstSeen[id := noted])
  }

  function Judge(m: Memory, patience: nat, id: nat, x: Exchange): Step
    requires id in m.firstSeen
  {
    match x.answer
    case NotReady =>
      if x.checked - m.firstSeen[id] > patience then Step(m.(done := m.done + {id}), Failed) else Step(m, Waiting)
    case ProxyFailure => Step(m, Failed)
    case Result(entry, sent) =>
      if sent.Accepted? then Step(m.(done := m.done + {id}, submitted := m.submitted + [id]), Finished)
      else if TakenForApplied(entry, sent) then Step(m.(done := m.done + {id}), Finished)
      else Step(m, Failed)
  }

  function Handle(m: Memory, patience: nat, log: Log, x: Exchange): Step {
    match log.action
    case None => Step(m, Failed)
    case Some(id) => if id in m.done then Step(m, Finished) else Judge(Note(m, id, x.noted), patience, id, x)
  }

  // ---- One scan ----

  datatype Scan = Scan(memory: Memory, pending: bool)

  predicate InRange(log: Log, lo: nat, hi: nat) {
    log.handled && lo <= log.block <= hi
  }

  /** The first n logs of the chain, those in the range handled. */
  function ScanLogs(m: Memory, patience: nat, chain: seq<Log>, xs: nat -> Exchange, lo: nat, hi: nat, n: nat): Scan
    requires n <= |chain|
  {
    if n == 0 then Scan(m, false)
    else
      var before := ScanLogs(m, patience, chain, xs, lo, hi, n - 1);
      if !InRange(chain[n - 1], lo, hi) then before
      else
        var step := Handle(before.memory, patience, chain[n - 1], xs(n - 1));
        Scan(step.memory.(last := step.memory.last[n - 1 := step.verdict]), before.pending || step.verdict.Waiting?)
  }

  // ---- The loop ----

  /** One poll: the head if it could be read, whether the logs could be fetched, the exchanges. */
  datatype Poll = Poll(head: Option<nat>, fetched: bool, xs: nat -> Exchange)

  datatype Cursor = Cursor(memory: Memory, next: nat)

  function PollOnce(c: Cursor, patience: nat, chain: seq<Log>, poll: Poll): Cursor {
    if poll.head.None? || poll.head.value < c.next || !poll.fetched then c
    else
      var scan := ScanLogs(c.memory, patience, chain, poll.xs, c.next, poll.head.value, |chain|);
      Cursor(scan.memory, if scan.pending then c.next else poll.head.value + 1)
  }

  function PollAll(start: nat, patience: nat, chain: seq<Log>, polls: seq<Poll>): Cursor {
    if polls == [] then Cursor(BLANK, start)
    else PollOnce(PollAll(start, patience, chain, polls[..|polls| - 1]), patience, chain, polls[|polls| - 1])
  }

  /** Where the scan begins: the block asked for, or 200 behind the head. */
  function StartBlock(from: nat, head: nat): nat {
    if from != 0 then from else if head > 200 then head - 200 else 0
  }

  // ---- The cursor never skips unfinished work ----

  lemma HandleLeavesVerdicts(m: Memory, patience: nat, log: Log, x: Exchange)
    ensures Handle(m, patience, log, x).memory.last == m.last
  {
  }

  /** A scan gives every log in its range a verdict and leaves the verdicts outside the range alone. */
  lemma {:induction false} ScanJudgesRange(m: Memory, patience: nat, chain: seq<Log>, xs: nat -> Exchange, lo: nat, hi: nat, n: nat)
    requires n <= |chain|
    ensures
      var last := ScanLogs(m, patience, chain, xs, lo, hi, n).memory.last;
      && (forall k :: 0 <= k < n && InRange(chain[k], lo, hi) ==> k in last)
      && (forall k :: !(0 <= k < n && InRange(chain[k], lo, hi)) ==>
            (k in last <==> k in m.last) && (k in m.last ==> last[k] == m.last[k]))
  {
    hide Handle, InRange;
    if n > 0 {
      ScanJudgesRange(m, patience, chain, xs, lo, hi, n - 1);
      HandleLeavesVerdicts(ScanLogs(m, patience, chain, xs, lo, hi, n - 1).memory, patience, chain[n - 1], xs(n - 1));
    }
  }

  /** It is pending exactly when some log in the range is left waiting. */
  lemma {:induction false} PendingExactly(m: Memory, patience: nat, chain: seq<Log>, xs: nat -> Exchange, lo: nat, hi: nat, n: nat)
    requires n <= |chain|
    ensures
      var s := ScanLogs(m, patience, chain, xs, lo, hi, n);
      s.pending <==> exists k :: 0 <= k < n && InRange(chain[k], lo, hi) && k in s.memory.last && s.memory.last[k] == Waiting
  {
    hide Handle, InRange;
    if n > 0 {
      PendingExactly(m, patience, chain, xs, lo, hi, n - 1);
      var before, s := ScanLogs(m, patience, chain, xs, lo, hi, n - 1), ScanLogs(m, patience, chain, xs, lo, hi, n);
      HandleLeavesVerdicts(before.memory, patience, chain[n - 1], xs(n - 1));
      if before.pending {
        var k :| 0 <= k < n - 1 && InRange(chain[k], lo, hi) && k in before.memory.last && before.memory.last[k] == Waiting;
        assert s.memory.last[k] == Waiting;
      }
    }
  }

  /** Every log behind the cursor has been handled, and its latest verdict is not "not ready": it was
      submitted, found applied, given up on, or it failed. */
  ghost predicate NoneSkipped(c: Cursor, start: nat, chain: seq<Log>) {
    && start <= c.next
    && forall k :: 0 <= k < |chain| && chain[k].handled && start <= chain[k].block < c.next ==>
         k in c.memory.last && c.memory.last[k] != Waiting
  }

  lemma PollSkipsNothing(c: Cursor, start: nat, patience: nat, chain: seq<Log>, poll: Poll)
    requires NoneSkipped(c, start, chain)
    ensures NoneSkipped(PollOnce(c, patience, chain, poll), start, chain)
    ensures PollOnce(c, patience, chain, poll).next >= c.next
  {
    hide ScanLogs;
    if poll.head.Some? {
      ScanJudgesRange(c.memory, patience, chain, poll.xs, c.next, poll.head.value, |chain|);
      PendingExactly(c.memory, patience, chain, poll.xs, c.next, poll.head.value, |chain|);
    }
  }

  /** Along any run of the loop the cursor only moves forward and skips nothing. */
  lemma {:induction false} CursorNeverSkips(start: nat, patience: nat, chain: seq<Log>, polls: seq<Poll>)
    ensures NoneSkipped(PollAll(start, patience, chain, polls), start, chain)
    ensures polls != [] ==>
      PollAll(start, patience, chain, polls).next >= PollAll(start, patience, chain, polls[..|polls| - 1]).next
  {
    hide PollOnce;
    if polls != [] {
      CursorNeverSkips(start, patience, chain, polls[..|polls| - 1]);
      PollSkipsNothing(PollAll(start, patience, chain, polls[..|polls| - 1]), start, patience, chain, polls[|polls| - 1]);
    }
  }

  /** Nothing before the start is ever handled, nor anything without a handler. */
  ghost predicate NothingBefore(m: Memory, start: nat, chain: seq<Log>) {
    forall k :: k in m.last ==> k < |chain| && chain[k].handled && start <= chain[k].block
  }

  lemma {:induction false} HandlesFromStart(start: nat, patience: nat, chain: seq<Log>, polls: seq<Poll>)
    ensures NothingBefore(PollAll(start, patience, chain, polls).memory, start, chain)
  {
    hide PollOnce;
    if polls != [] {
      HandlesFromStart(start, patience, chain, polls[..|polls| - 1]);
      CursorNeverSkips(start, patience, chain, polls[..|polls| - 1]);
      PollHandlesFromStart(PollAll(start, patience, chain, polls[..|polls| - 1]), start, patience, chain, polls[|polls| - 1]);
    }
  }

  lemma PollHandlesFromStart(c: Cursor, start: nat, patience: nat, chain: seq<Log>, poll: Poll)
    requires NothingBefore(c.memory, start, chain) && start <= c.next
    ensures NothingBefore(PollOnce(c, patience, chain, poll).memory, start, chain)
  {
    hide ScanLogs;
    if poll.head.Some? {
      ScanJudgesRange(c.memory, patience, chain, poll.xs, c.next, poll.head.value, |chain|);
    }
  }

  /** The blocks the relay is meant to look at: from the block asked for, or from 200 behind the head it
      found at startup. */
  predicate Watched(from: nat, firstHead: nat, block: nat) {
    if from == 0 then block + 200 >= firstHead else block >= from
  }

  lemma StartIsWatched(from: nat, firstHead: nat, block: nat)
    ensures Watched(from, firstHead, block) <==> block >= StartBlock(from, firstHead)
  {
  }

  /** Every watched log behind the cursor has been handled and is not waiting, and only watched logs have
      been handled. */
  ghost predicate WatchedAreHandled(c: Cursor, from: nat, firstHead: nat, chain: seq<Log>) {
    && (forall k :: 0 <= k < |chain| && chain[k].handled && Watched(from, firstHead, chain[k].block) && chain[k].block < c.next
          ==> k in c.memory.last && c.memory.last[k] != Waiting)
    && (forall k :: k in c.memory.last ==> k < |chain| && chain[k].handled && Watched(from, firstHead, chain[k].block))
  }

  lemma WatchedHandled(from: nat, firstHead: nat, patience: nat, chain: seq<Log>, polls: seq<Poll>)
    ensures WatchedAreHandled(PollAll(StartBlock(from, firstHead), patience, chain, polls), from, firstHead, chain)
  {
    hide PollAll, StartBlock;
    var start := StartBlock(from, firstHead);
    CursorNeverSkips(start, patience, chain, polls);
    HandlesFromStart(start, patience, chain, polls);
    forall k | 0 <= k < |chain| ensures Watched(from, firstHead, chain[k].block) <==> chain[k].block >= start {
      StartIsWatched(from, firstHead, chain[k].block);
    }
  }

  // ---- One log, exactly ----

  predicate IsMarker(word: string) {
    || word == "would revert" || word == "WrongState" || word == "TreasuryAlreadyBound" || word == "NoPendingPolicy"
    || word == "ResultBindingMismatch"
  }

  lemma ContainsExactly(s: string, part: string)
    ensures Contains(s, part) <==> exists before, after :: s == before + part + after
  {
    if Contains(s, part) {
      var i :| 0 <= i <= |s| && HasAt(s, part, i);
      assert s == s[..i] + part + s[i + |part|..];
    }
    if before, after :| s == before + part + after {
      ContainsPart(before, part, after);
    }
  }

  /** A message is taken for "not new" exactly when one of the five markers stands somewhere in it. */
  lemma MarkersExactly(message: string)
    ensures IsAlreadyApplied(message) <==> exists marker :: IsMarker(marker) && Contains(message, marker)
    ensures forall part :: Contains(message, part) <==> exists before, after :: message == before + part + after
  {
    hide Contains;
    assert IsMarker("would revert") && IsMarker("WrongState") && IsMarker("TreasuryAlreadyBound") && IsMarker("NoPendingPolicy")
           && IsMarker("ResultBindingMismatch");
    forall part ensures Contains(message, part) <==> exists before, after :: message == before + part + after {
      ContainsExactly(message, part);
    }
  }

  lemma PartIsIn(s: string, part: string, k: nat)
    requires Contains(s, part) && k < |part|
    ensures part[k] in s
  {
    var i :| 0 <= i <= |s| && HasAt(s, part, i);
    assert part[k] == s[i..i + |part|][k] == s[i + k];
  }

  /** A submission that was mined and failed is reported as "<entry> reverted (tx <hash>)": no entry point's
      name and no hash has a letter w, W, B, N or R, so it is not taken for applied. */
  lemma MinedRevertIsNotTaken(entry: string, tx: string)
    requires forall c :: c in entry || c in tx ==> c !in "wWBNR"
    ensures !IsAlreadyApplied(entry + " reverted (tx " + tx + ")")
  {
    var message := entry + " reverted (tx " + tx + ")";
    assert forall c :: c in " reverted (tx " || c in ")" ==> c !in "wWBNR";
    assert forall c :: c in message ==> c !in "wWBNR";
    if IsAlreadyApplied(message) {
      if Contains(message, "would revert") {
        PartIsIn(message, "would revert", 0);
      } else if Contains(message, "WrongState") {
        PartIsIn(message, "WrongState", 0);
      } else if Contains(message, "TreasuryAlreadyBound") {
        PartIsIn(message, "TreasuryAlreadyBound", 15);
      } else if Contains(message, "NoPendingPolicy") {
        PartIsIn(message, "NoPendingPolicy", 0);
      } else {
        PartIsIn(message, "ResultBindingMismatch", 0);
      }
      assert false;
    }
  }

  /** When the log's action was first seen. */
  function SeenAt(m: Memory, id: nat, x: Exchange): nat {
    if id in m.firstSeen then m.firstSeen[id] else x.noted
  }

  /** Its action is done, its submission is accepted, or the submission fails with a marker in the message. */
  predicate Finishes(m: Memory, log: Log, x: Exchange) {
    && log.action.Some?
    && (|| log.action.value in m.done
        || (x.answer.Result? && (x.answer.sent.Accepted? || IsAlreadyApplied(Message(x.answer.entry, x.answer.sent)))))
  }

  /** Its result is not ready, and it was first seen no longer ago than the patience. */
  predicate StaysOpen(m: Memory, patience: nat, log: Log, x: Exchange) {
    && log.action.Some? && log.action.value !in m.done
    && x.answer.NotReady? && x.checked - SeenAt(m, log.action.value, x) <= patience
  }

  /** How one handling of a log ends. */
  lemma VerdictExactly(m: Memory, patience: nat, log: Log, x: Exchange)
    ensures Handle(m, patience, log, x).verdict ==
      if Finishes(m, log, x) then Finished else if StaysOpen(m, patience, log, x) then Waiting else Failed
  {
  }

  /** What it writes: the time an open action was first seen, once; the action as done when it finished or
      was given up on; the action as submitted when its submission was accepted. */
  lemma MemoryExactly(m: Memory, patience: nat, log: Log, x: Exchange)
    ensures
      var m' := Handle(m, patience, log, x).memory;
      if log.action.None? || log.action.value in m.done then m' == m
      else
        var id := log.action.value;
        && m'.last == m.last
        && m'.firstSeen == m.firstSeen[id := SeenAt(m, id, x)]
        && m'.done == (if Handle(m, patience, log, x).verdict == Finished
                          || (x.answer.NotReady? && x.checked - SeenAt(m, id, x) > patience) then m.done + {id} else m.done)
        && m'.submitted == (if x.answer.Result? && x.answer.sent.Accepted? then m.submitted + [id] else m.submitted)
  {
  }

  /** One poll: with a readable head at or past the cursor and the logs fetched, the cursor moves past that
      head unless a log in the range is left waiting; otherwise nothing happens. */
  lemma CursorExactly(c: Cursor, patience: nat, chain: seq<Log>, poll: Poll)
    ensures
      var c' := PollOnce(c, patience, chain, poll);
      if poll.head.Some? && poll.head.value >= c.next && poll.fetched then
        var waits := exists k :: 0 <= k < |chain| && InRange(chain[k], c.next, poll.head.value)
                                 && k in c'.memory.last && c'.memory.last[k] == Waiting;
        c'.next == if waits then c.next else poll.head.value + 1
      else c' == c
  {
    hide ScanLogs, InRange;
    if poll.head.Some? {
      PendingExactly(c.memory, patience, chain, poll.xs, c.next, poll.head.value, |chain|);
    }
  }

  // ---- A finished log's action is done ----

  /** A log whose latest verdict is "finished" names an action the relay has marked done. */
  ghost predicate FinishedIsDone(m: Memory, chain: seq<Log>) {
    forall k :: k in m.last ==> k < |chain| && (m.last[k] == Finished ==> chain[k].action.Some? && chain[k].action.value in m.done)
  }

  lemma HandleFinishes(m: Memory, patience: nat, log: Log, x: Exchange)
    ensures
      var step := Handle(m, patience, log, x);
      m.done <= step.memory.done && (step.verdict == Finished ==> log.action.Some? && log.action.value in step.memory.done)
  {
  }

  lemma {:induction false} ScanFinishes(m: Memory, patience: nat, chain: seq<Log>, xs: nat -> Exchange, lo: nat, hi: nat, n: nat)
    requires n <= |chain| && FinishedIsDone(m, chain)
    ensures FinishedIsDone(ScanLogs(m, patience, chain, xs, lo, hi, n).memory, chain)
  {
    hide Handle, InRange;
    if n > 0 {
      ScanFinishes(m, patience, chain, xs, lo, hi, n - 1);
      var before := ScanLogs(m, patience, chain, xs, lo, hi, n - 1);
      HandleFinishes(before.memory, patience, chain[n - 1], xs(n - 1));
      HandleLeavesVerdicts(before.memory, patience, chain[n - 1], xs(n - 1));
    }
  }

  /** In every run, what the loop treats as finished is done. */
  lemma {:induction false} FinishedStaysDone(start: nat, patience: nat, chain: seq<Log>, polls: seq<Poll>)
    ensures FinishedIsDone(PollAll(start, patience, chain, polls).memory, chain)
  {
    hide ScanLogs;
    if polls != [] {
      FinishedStaysDone(start, patience, chain, polls[..|polls| - 1]);
      var c, poll := PollAll(start, patience, chain, polls[..|polls| - 1]), polls[|polls| - 1];
      if poll.head.Some? {
        ScanFinishes(c.memory, patience, chain, poll.xs, c.next, poll.head.value, |chain|);
      }
    }
  }

  // ---- Why an action is done ----

  datatype Reason = Submitted | SeemedApplied | GivenUp

  /** Whether one handling completes its log's action, and how, by what the proxy and chain answered. */
  function Completes(m: Memory, patience: nat, log: Log, x: Exchange): Option<Reason> {
    if log.action.None? || log.action.value in m.done then None
    else
      match x.answer
      case Result(entry, sent) =>
        if sent.Accepted? then Some(Submitted) else if TakenForApplied(entry, sent) then Some(SeemedApplied) else None
      case NotReady => if x.checked - Note(m, log.action.value, x.noted).firstSeen[log.action.value] > patience then Some(GivenUp) else None
      case ProxyFailure => None
  }

  predicate FailsToSend(answer: Answer) {
    match answer
    case NotReady => false
    case ProxyFailure => true
    case Result(entry, sent) => !sent.Accepted? && !TakenForApplied(entry, sent)
  }

  /** One handling that fails for good as far as the loop can tell: the data does not decode, the proxy
      fails otherwise than by "not ready", or the submission fails without a marker in its message. */
  predicate FailsHard(m: Memory, log: Log, x: Exchange) {
    log.action.None? || (log.action.value !in m.done && FailsToSend(x.answer))
  }

  lemma HandleOutcome(m: Memory, patience: nat, log: Log, x: Exchange)
    ensures
      var m' := Handle(m, patience, log, x).memory;
      && m'.done == (if Completes(m, patience, log, x).Some? then m.done + {log.action.value} else m.done)
      && m'.submitted == (if Completes(m, patience, log, x) == Some(Submitted) then m.submitted + [log.action.value] else m.submitted)
    ensures Handle(m, patience, log, x).verdict != Waiting ==>
      || (log.action.Some? && log.action.value in m.done) || Completes(m, patience, log, x).Some? || FailsHard(m, log, x)
  {
  }

  /** The loop over some polls. */
  datatype Run = Run(start: nat, patience: nat, chain: seq<Log>, polls: seq<Poll>)

  function After(run: Run, i: nat): Cursor
    requires i <= |run.polls|
  {
    PollAll(run.start, run.patience, run.chain, run.polls[..i])
  }

  /** The memory when poll i comes to log j. */
  function Coming(run: Run, i: nat, j: nat): Memory
    requires i < |run.polls| && run.polls[i].head.Some? && j <= |run.chain|
  {
    var c := After(run, i);
    ScanLogs(c.memory, run.patience, run.chain, run.polls[i].xs, c.next, run.polls[i].head.value, j).memory
  }

  /** Poll i handles log j. */
  predicate Handles(run: Run, i: nat, j: nat) {
    && i < |run.polls| && j < |run.chain|
    && run.polls[i].head.Some? && run.polls[i].fetched && run.polls[i].head.value >= After(run, i).next
    && InRange(run.chain[j], After(run, i).next, run.polls[i].head.value)
  }

  predicate CompletedAt(run: Run, id: nat, reason: Reason, i: nat, j: nat) {
    && Handles(run, i, j) && run.chain[j].action == Some(id)
    && Completes(Coming(run, i, j), run.patience, run.chain[j], run.polls[i].xs(j)) == Some(reason)
  }

  lemma AfterStep(run: Run, i: nat)
    requires i < |run.polls|
    ensures After(run, i + 1) == PollOnce(After(run, i), run.patience, run.chain, run.polls[i])
  {
    assert run.polls[..i + 1][..i] == run.polls[..i];
  }

  /** A scan completes an action at log j. */
  predicate ScanCompletes(m: Memory, patience: nat, chain: seq<Log>, xs: nat -> Exchange, lo: nat, hi: nat, j: nat, id: nat) {
    && j < |chain| && InRange(chain[j], lo, hi) && chain[j].action == Some(id)
    && Completes(ScanLogs(m, patience, chain, xs, lo, hi, j).memory, patience, chain[j], xs(j)).Some?
  }

  /** The actions one scan completes are done after it, and no others are new. */
  lemma {:induction false} ScanDoneExactly(
    m: Memory, patience: nat, chain: seq<Log>, xs: nat -> Exchange, lo: nat, hi: nat, n: nat, id: nat)
    requires n <= |chain|
    ensures id in ScanLogs(m, patience, chain, xs, lo, hi, n).memory.done <==>
      id in m.done || exists j: nat :: j < n && ScanCompletes(m, patience, chain, xs, lo, hi, j, id)
  {
    hide Handle, InRange, Completes;
    if n > 0 {
      ScanDoneExactly(m, patience, chain, xs, lo, hi, n - 1, id);
      var here := ScanCompletes(m, patience, chain, xs, lo, hi, n - 1, id);
      var before := ScanLogs(m, patience, chain, xs, lo, hi, n - 1);
      HandleOutcome(before.memory, patience, chain[n - 1], xs(n - 1));
      CompletesNamed(before.memory, patience, chain[n - 1], xs(n - 1));
    }
  }

  lemma CompletesNamed(m: Memory, patience: nat, log: Log, x: Exchange)
    ensures Completes(m, patience, log, x).Some? ==> log.action.Some? && log.action.value !in m.done
  {
  }

  /** Some handling in the first n polls completed the action. */
  ghost predicate EverCompleted(run: Run, id: nat, n: nat) {
    exists reason: Reason, i: nat, j: nat :: i < n && CompletedAt(run, id, reason, i, j)
  }

  /** After any polls an action is done exactly when some handling of a log that names it was answered
      "accepted", or failed in words the relay takes for "already applied", or was answered "not ready"
      past the patience. */
  lemma {:induction false} DoneExactly(run: Run, n: nat, id: nat)
    requires n <= |run.polls|
    ensures id in After(run, n).memory.done <==> EverCompleted(run, id, n)
  {
    hide PollAll, ScanLogs, InRange, Completes, CompletedAt;
    if n == 0 {
      assert After(run, 0).memory == BLANK by {
        BlankAtFirst(run);
      }
    } else {
      DoneExactly(run, n - 1, id);
      PollDoneExactly(run, n - 1, id);
      if EverCompleted(run, id, n) {
        var reason: Reason, i: nat, j: nat :| i < n && CompletedAt(run, id, reason, i, j);
        assert i < n - 1 || i == n - 1;
      }
    }
  }

  lemma BlankAtFirst(run: Run)
    ensures After(run, 0) == Cursor(BLANK, run.start)
  {
  }

  lemma PollDoneExactly(run: Run, i: nat, id: nat)
    requires i < |run.polls|
    ensures id in After(run, i + 1).memory.done <==>
      id in After(run, i).memory.done || exists reason: Reason, j: nat :: CompletedAt(run, id, reason, i, j)
  {
    hide PollAll, ScanLogs, InRange, Completes;
    AfterStep(run, i);
    var c, poll := After(run, i), run.polls[i];
    if poll.head.Some? && poll.fetched && poll.head.value >= c.next {
      ScanDoneExactly(c.memory, run.patience, run.chain, poll.xs, c.next, poll.head.value, |run.chain|, id);
      if id in After(run, i + 1).memory.done && id !in c.memory.done {
        var j: nat :| j < |run.chain| && ScanCompletes(c.memory, run.patience, run.chain, poll.xs, c.next, poll.head.value, j, id);
        assert CompletedAt(run, id, Completes(Coming(run, i, j), run.patience, run.chain[j], poll.xs(j)).value, i, j);
      }
      if exists reason: Reason, j: nat :: CompletedAt(run, id, reason, i, j) {
        var reason: Reason, j: nat :| CompletedAt(run, id, reason, i, j);
        assert ScanCompletes(c.memory, run.patience, run.chain, poll.xs, c.next, poll.head.value, j, id);
      }
    }
  }

  /** An action is on record as submitted exactly when some handling of it was answered "accepted". */
  lemma {:induction false} SubmittedExactly(run: Run, n: nat, id: nat)
    requires n <= |run.polls|
    ensures id in After(run, n).memory.submitted <==> exists i: nat, j: nat :: i < n && CompletedAt(run, id, Submitted, i, j)
  {
    hide PollAll, ScanLogs, InRange, Completes, CompletedAt;
    if n == 0 {
      BlankAtFirst(run);
    } else {
      SubmittedExactly(run, n - 1, id);
      PollSubmittedExactly(run, n - 1, id);
      if exists i: nat, j: nat :: i < n && CompletedAt(run, id, Submitted, i, j) {
        var i: nat, j: nat :| i < n && CompletedAt(run, id, Submitted, i, j);
        assert i < n - 1 || i == n - 1;
      }
    }
  }

  /** A scan submits an action at log j. */
  predicate ScanSubmits(m: Memory, patience: nat, chain: seq<Log>, xs: nat -> Exchange, lo: nat, hi: nat, j: nat, id: nat) {
    && j < |chain| && InRange(chain[j], lo, hi) && chain[j].action == Some(id)
    && Completes(ScanLogs(m, patience, chain, xs, lo, hi, j).memory, patience, chain[j], xs(j)) == Some(Submitted)
  }

  lemma {:induction false} ScanSubmittedExactly(
    m: Memory, patience: nat, chain: seq<Log>, xs: nat -> Exchange, lo: nat, hi: nat, n: nat, id: nat)
    requires n <= |chain|
    ensures id in ScanLogs(m, patience, chain, xs, lo, hi, n).memory.submitted <==>
      id in m.submitted || exists j: nat :: j < n && ScanSubmits(m, patience, chain, xs, lo, hi, j, id)
  {
    hide Handle, InRange, Completes;
    if n > 0 {
      ScanSubmittedExactly(m, patience, chain, xs, lo, hi, n - 1, id);
      var here := ScanSubmits(m, patience, chain, xs, lo, hi, n - 1, id);
      var before := ScanLogs(m, patience, chain, xs, lo, hi, n - 1);
      HandleOutcome(before.memory, patience, chain[n - 1], xs(n - 1));
      CompletesNamed(before.memory, patience, chain[n - 1], xs(n - 1));
    }
  }

  lemma PollSubmittedExactly(run: Run, i: nat, id: nat)
    requires i < |run.polls|
    ensures id in After(run, i + 1).memory.submitted <==>
      id in After(run, i).memory.submitted || exists j: nat :: CompletedAt(run, id, Submitted, i, j)
  {
    hide PollAll, ScanLogs, InRange, Completes;
    AfterStep(run, i);
    var c, poll := After(run, i), run.polls[i];
    if poll.head.Some? && poll.fetched && poll.head.value >= c.next {
      ScanSubmittedExactly(c.memory, run.patience, run.chain, poll.xs, c.next, poll.head.value, |run.chain|, id);
      if id in After(run, i + 1).memory.submitted && id !in c.memory.submitted {
        var j: nat :| j < |run.chain| && ScanSubmits(c.memory, run.patience, run.chain, poll.xs, c.next, poll.head.value, j, id);
        assert CompletedAt(run, id, Submitted, i, j);
      }
      if exists j: nat :: CompletedAt(run, id, Submitted, i, j) {
        var j: nat :| CompletedAt(run, id, Submitted, i, j);
        assert ScanSubmits(c.memory, run.patience, run.chain, poll.xs, c.next, poll.head.value, j, id);
      }
    }
  }

  // ---- What the cursor leaves undone ----

  /** Poll i handles log k and moves the cursor past it. */
  predicate Passes(run: Run, i: nat, k: nat) {
    Handles(run, i, k) && After(run, i + 1).next > run.chain[k].block
  }

  /** Log k lies behind the cursor at the end. */
  predicate Behind(run: Run, k: nat) {
    k < |run.chain| && run.chain[k].handled && run.start <= run.chain[k].block < After(run, |run.polls|).next
  }

  predicate IsDone(run: Run, k: nat) {
    k < |run.chain| && run.chain[k].action.Some? && run.chain[k].action.value in After(run, |run.polls|).memory.done
  }

  lemma CursorFromStart(run: Run, i: nat)
    requires i <= |run.polls|
    ensures run.start <= After(run, i).next
  {
    CursorNeverSkips(run.start, run.patience, run.chain, run.polls[..i]);
  }

  /** Some poll passed every log behind the cursor. */
  lemma {:induction false} SomePollPassed(run: Run, n: nat, k: nat) returns (i: nat)
    requires n <= |run.polls| && k < |run.chain| && run.chain[k].handled
    requires run.start <= run.chain[k].block < After(run, n).next
    ensures i < n && Passes(run, i, k)
  {
    hide ScanLogs;
    i := 0;
    if n == 0 {
      assert false;
    } else {
      AfterStep(run, n - 1);
      CursorFromStart(run, n - 1);
      if run.chain[k].block < After(run, n - 1).next {
        i := SomePollPassed(run, n - 1, k);
      } else {
        i := n - 1;
      }
    }
  }

  /** A scan records for each log the verdict of its handling. */
  lemma {:induction false} ScanVerdict(m: Memory, patience: nat, chain: seq<Log>, xs: nat -> Exchange, lo: nat, hi: nat, n: nat, k: nat)
    requires k < n <= |chain| && InRange(chain[k], lo, hi)
    ensures
      var last := ScanLogs(m, patience, chain, xs, lo, hi, n).memory.last;
      k in last && last[k] == Handle(ScanLogs(m, patience, chain, xs, lo, hi, k).memory, patience, chain[k], xs(k)).verdict
  {
    hide Handle, InRange;
    if k < n - 1 {
      ScanVerdict(m, patience, chain, xs, lo, hi, n - 1, k);
      HandleLeavesVerdicts(ScanLogs(m, patience, chain, xs, lo, hi, n - 1).memory, patience, chain[n - 1], xs(n - 1));
    }
  }

  /** A log that was passed was done already, completed, or failed hard; nothing else lets the cursor by. */
  lemma PassedBecause(run: Run, i: nat, k: nat)
    requires Passes(run, i, k)
    ensures
      var m, log, x := Coming(run, i, k), run.chain[k], run.polls[i].xs(k);
      (log.action.Some? && log.action.value in m.done) || Completes(m, run.patience, log, x).Some? || FailsHard(m, log, x)
  {
    hide ScanLogs, Handle, Completes, FailsHard, PollAll;
    AfterStep(run, i);
    var c, poll := After(run, i), run.polls[i];
    PendingExactly(c.memory, run.patience, run.chain, poll.xs, c.next, poll.head.value, |run.chain|);
    ScanVerdict(c.memory, run.patience, run.chain, poll.xs, c.next, poll.head.value, |run.chain|, k);
    HandleOutcome(Coming(run, i, k), run.patience, run.chain[k], poll.xs(k));
  }

  lemma {:induction false} ScanKeepsDone(m: Memory, patience: nat, chain: seq<Log>, xs: nat -> Exchange, lo: nat, hi: nat, n: nat)
    requires n <= |chain|
    ensures m.done <= ScanLogs(m, patience, chain, xs, lo, hi, n).memory.done
  {
    hide Handle, Completes;
    if n > 0 {
      ScanKeepsDone(m, patience, chain, xs, lo, hi, n - 1);
      HandleOutcome(ScanLogs(m, patience, chain, xs, lo, hi, n - 1).memory, patience, chain[n - 1], xs(n - 1));
    }
  }

  /** Poll i passes log k on a hard failure there. */
  predicate FailsAt(run: Run, i: nat, k: nat) {
    Passes(run, i, k) && FailsHard(Coming(run, i, k), run.chain[k], run.polls[i].xs(k))
  }

  /** What is done when a poll comes to a log was completed, then or before. */
  lemma DoneOnComing(run: Run, i: nat, k: nat, id: nat)
    requires Handles(run, i, k) && id in Coming(run, i, k).done
    ensures EverCompleted(run, id, i + 1)
  {
    hide PollAll, ScanLogs, Completes;
    var c, poll := After(run, i), run.polls[i];
    ScanDoneExactly(c.memory, run.patience, run.chain, poll.xs, c.next, poll.head.value, k, id);
    DoneExactly(run, i, id);
    if id !in c.memory.done {
      var j: nat :| j < k && ScanCompletes(c.memory, run.patience, run.chain, poll.xs, c.next, poll.head.value, j, id);
      assert CompletedAt(run, id, Completes(Coming(run, i, j), run.patience, run.chain[j], poll.xs(j)).value, i, j);
    }
  }

  lemma CompletedOrDone(run: Run, i: nat, k: nat)
    requires Passes(run, i, k) && !FailsAt(run, i, k)
    ensures run.chain[k].action.Some? && EverCompleted(run, run.chain[k].action.value, |run.polls|)
  {
    hide PollAll, ScanLogs, Completes, After, InRange;
    PassedBecause(run, i, k);
    NoActionFails(Coming(run, i, k), run.chain[k], run.polls[i].xs(k));
    var id := run.chain[k].action.value;
    if id in Coming(run, i, k).done {
      DoneOnComing(run, i, k, id);
      var reason: Reason, i': nat, j': nat :| i' < i + 1 && CompletedAt(run, id, reason, i', j');
      assert i' < |run.polls|;
    } else {
      assert CompletedAt(run, id, Completes(Coming(run, i, k), run.patience, run.chain[k], run.polls[i].xs(k)).value, i, k);
    }
  }

  lemma NoActionFails(m: Memory, log: Log, x: Exchange)
    ensures log.action.None? ==> FailsHard(m, log, x)
  {
  }

  /** A log behind the cursor is left undone exactly when the poll that passed it met a hard failure
      there and no handling of its action, at this log or another, ever completes it. */
  lemma LeftUndoneExactly(run: Run, k: nat)
    requires Behind(run, k)
    ensures !IsDone(run, k) <==>
      && (exists i: nat :: FailsAt(run, i, k))
      && (run.chain[k].action.Some? ==> !EverCompleted(run, run.chain[k].action.value, |run.polls|))
  {
    hide After, Coming, Handles, FailsHard, CompletedAt, EverCompleted, Passes, FailsAt;
    if run.chain[k].action.Some? {
      DoneExactly(run, |run.polls|, run.chain[k].action.value);
    }
    var i := PassingPoll(run, k);
    if !FailsAt(run, i, k) {
      CompletedOrDone(run, i, k);
    }
  }

  lemma PassingPoll(run: Run, k: nat) returns (i: nat)
    requires Behind(run, k)
    ensures Passes(run, i, k)
  {
    hide After, Passes;
    i := SomePollPassed(run, |run.polls|, k);
  }

  /** Each instruction id is logged once. */
  ghost predicate DistinctActions(chain: seq<Log>) {
    forall j: nat, k: nat :: j < |chain| && k < |chain| && chain[j].action.Some? && chain[j].action == chain[k].action ==> j == k
  }

  /** Polls only move the cursor forward. */
  lemma {:induction false} CursorForward(run: Run, i: nat, j: nat)
    requires i <= j <= |run.polls|
    ensures After(run, i).next <= After(run, j).next
  {
    hide ScanLogs, PollAll;
    if i < j {
      CursorForward(run, i, j - 1);
      AfterStep(run, j - 1);
    }
  }

  /** With every id logged once: all handled logs behind the cursor are in the done map, submitted,
      taken for applied or given up on after the patience, exactly when no poll passed a log on a hard failure there. */
  lemma EveryPassedLogDoneExactly(run: Run)
    requires DistinctActions(run.chain)
    ensures (forall k: nat :: Behind(run, k) ==> IsDone(run, k)) <==> (forall i: nat, k: nat :: !FailsAt(run, i, k))
  {
    hide After, Behind, IsDone, FailsAt, EverCompleted, DistinctActions;
    if forall i: nat, k: nat :: !FailsAt(run, i, k) {
      forall k: nat | Behind(run, k) ensures IsDone(run, k) {
        LeftUndoneExactly(run, k);
      }
    }
    forall i: nat, k: nat | FailsAt(run, i, k) ensures Behind(run, k) && !IsDone(run, k) {
      FailedStaysUndone(run, i, k);
    }
  }

  /** After a hard failure at the log that alone names its action, the passed log stays undone. */
  lemma FailedStaysUndone(run: Run, i: nat, k: nat)
    requires DistinctActions(run.chain) && FailsAt(run, i, k)
    ensures Behind(run, k) && !IsDone(run, k)
  {
    PassedIsBehind(run, i, k);
    hide PollAll, ScanLogs;
    if IsDone(run, k) {
      var id := run.chain[k].action.value;
      DoneExactly(run, |run.polls|, id);
      var reason: Reason, i': nat, j': nat :| i' < |run.polls| && CompletedAt(run, id, reason, i', j');
      NotCompletedLater(run, i, k, reason, i', j');
      DoneExactly(run, i, id);
      ScanKeepsDone(After(run, i).memory, run.patience, run.chain, run.polls[i].xs, After(run, i).next, run.polls[i].head.value, k);
    }
  }

  /** The only handlings that could complete it come before. */
  lemma NotCompletedLater(run: Run, i: nat, k: nat, reason: Reason, i': nat, j': nat)
    requires DistinctActions(run.chain) && FailsAt(run, i, k)
    requires run.chain[k].action.Some? && CompletedAt(run, run.chain[k].action.value, reason, i', j')
    ensures i' < i
  {
    hide PollAll, ScanLogs;
    assert j' == k;
    if i' > i {
      CursorForward(run, i + 1, i');
    }
  }

  lemma PassedIsBehind(run: Run, i: nat, k: nat)
    requires Passes(run, i, k)
    ensures Behind(run, k)
  {
    hide PollAll;
    CursorForward(run, i + 1, |run.polls|);
    CursorFromStart(run, i);
  }

  // ---- No action is submitted twice ----

  ghost predicate SubmittedOnce(m: Memory) {
    && (forall id :: id in m.submitted ==> id in m.done)
    && (forall i, j :: 0 <= i < j < |m.submitted| ==> m.submitted[i] != m.submitted[j])
  }

  lemma HandleSubmitsOnce(m: Memory, patience: nat, log: Log, x: Exchange)
    requires SubmittedOnce(m)
    ensures SubmittedOnce(Handle(m, patience, log, x).memory)
  {
  }

  lemma {:induction false} ScanSubmitsOnce(m: Memory, patience: nat, chain: seq<Log>, xs: nat -> Exchange, lo: nat, hi: nat, n: nat)
    requires n <= |chain| && SubmittedOnce(m)
    ensures SubmittedOnce(ScanLogs(m, patience, chain, xs, lo, hi, n).memory)
  {
    if n > 0 {
      ScanSubmitsOnce(m, patience, chain, xs, lo, hi, n - 1);
      var before := ScanLogs(m, patience, chain, xs, lo, hi, n - 1);
      hide Handle;
      HandleSubmitsOnce(before.memory, patience, chain[n - 1], xs(n - 1));
    }
  }

  /** In one process no action id is successfully submitted twice. */
  lemma {:induction false} NoActionSubmittedTwice(start: nat, patience: nat, chain: seq<Log>, polls: seq<Poll>)
    ensures SubmittedOnce(PollAll(start, patience, chain, polls).memory)
  {
    hide ScanLogs, SubmittedOnce;
    if polls != [] {
      NoActionSubmittedTwice(start, patience, chain, polls[..|polls| - 1]);
      var c, poll := PollAll(start, patience, chain, polls[..|polls| - 1]), polls[|polls| - 1];
      if poll.head.Some? {
        ScanSubmitsOnce(c.memory, patience, chain, poll.xs, c.next, poll.head.value, |chain|);
      }
    } else {
      BlankSubmitsNothing();
    }
  }

  lemma BlankSubmitsNothing()
    ensures SubmittedOnce(BLANK)
  {
  }

  // ---- Giving up ----

  /** A handling that leaves a log waiting was within the patience of the action's first handling. */
  lemma WaitingIsPatient(m: Memory, patience: nat, log: Log, x: Exchange)
    requires Handle(m, patience, log, x).verdict == Waiting
    ensures log.action.Some? && log.action.value in Handle(m, patience, log, x).memory.firstSeen
    ensures x.checked <= Handle(m, patience, log, x).memory.firstSeen[log.action.value] + patience
  {
  }

  /** Everything in the range was first handled more than the patience ago, or is done or unreadable. */
  ghost predicate OverdueAt(m: Memory, patience: nat, chain: seq<Log>, xs: nat -> Exchange, lo: nat, hi: nat) {
    forall k :: 0 <= k < |chain| && InRange(chain[k], lo, hi) ==> Overdue(m, patience, chain[k], xs(k))
  }

  predicate Overdue(m: Memory, patience: nat, log: Log, x: Exchange) {
    log.action.None? || log.action.value in m.done
    || (log.action.value in m.firstSeen && x.checked > m.firstSeen[log.action.value] + patience)
  }

  /** Memory only grows: nothing is undone and a first sight stays. */
  ghost predicate Remembers(m: Memory, m': Memory) {
    m.done <= m'.done && forall id :: id in m.firstSeen ==> id in m'.firstSeen && m'.firstSeen[id] == m.firstSeen[id]
  }

  lemma HandleRemembers(m: Memory, patience: nat, log: Log, x: Exchange)
    ensures Remembers(m, Handle(m, patience, log, x).memory)
  {
  }

  lemma OverdueNotWaiting(m: Memory, m': Memory, patience: nat, log: Log, x: Exchange)
    requires Remembers(m, m') && Overdue(m, patience, log, x)
    ensures Handle(m', patience, log, x).verdict != Waiting
  {
  }

  lemma {:induction false} OverdueScanFinishes(m: Memory, patience: nat, chain: seq<Log>, xs: nat -> Exchange, lo: nat, hi: nat, n: nat)
    requires n <= |chain| && OverdueAt(m, patience, chain, xs, lo, hi)
    ensures !ScanLogs(m, patience, chain, xs, lo, hi, n).pending
    ensures Remembers(m, ScanLogs(m, patience, chain, xs, lo, hi, n).memory)
  {
    hide Handle, Overdue;
    if n > 0 {
      OverdueScanFinishes(m, patience, chain, xs, lo, hi, n - 1);
      var before := ScanLogs(m, patience, chain, xs, lo, hi, n - 1);
      if InRange(chain[n - 1], lo, hi) {
        HandleRemembers(before.memory, patience, chain[n - 1], xs(n - 1));
        OverdueNotWaiting(m, before.memory, patience, chain[n - 1], xs(n - 1));
      }
    }
  }

  /** Once everything ahead is overdue, a poll that can read the chain moves the cursor past its head. */
  lemma StuckWorkIsGivenUp(c: Cursor, patience: nat, chain: seq<Log>, poll: Poll)
    requires poll.head.Some? && poll.head.value >= c.next && poll.fetched
    requires OverdueAt(c.memory, patience, chain, poll.xs, c.next, poll.head.value)
    ensures PollOnce(c, patience, chain, poll).next == poll.head.value + 1
  {
    hide ScanLogs, OverdueAt;
    OverdueScanFinishes(c.memory, patience, chain, poll.xs, c.next, poll.head.value, |chain|);
  }

  /** Which is not always: one proxy failure, even a passing one, and the cursor is past an action that
      was never submitted. */
  lemma PassingFailureIsSkipped(id: nat, noted: nat, checked: nat, patience: nat)
    ensures
      var run := Run(1, patience, [Log(1, true, Some(id))], [Poll(Some(1), true, _ => Exchange(noted, checked, ProxyFailure))]);
      After(run, 1).next == 2 && Behind(run, 0) && !IsDone(run, 0) && After(run, 1).memory.submitted == []
  {
    var chain := [Log(1, true, Some(id))];
    var run := Run(1, patience, chain, [Poll(Some(1), true, _ => Exchange(noted, checked, ProxyFailure))]);
    BlankAtFirst(run);
    AfterStep(run, 0);
    var xs := run.polls[0].xs;
    assert ScanLogs(BLANK, patience, chain, xs, 1, 1, 0) == Scan(BLANK, false);
    assert ScanLogs(BLANK, patience, chain, xs, 1, 1, 1).memory.done == {};
  }

  /** Nor does a failed estimate stop it: one unreachable node while the relay estimates, and the action
      is done for good, its result never sent. */
  lemma LostEstimateIsSkipped(id: nat, noted: nat, checked: nat, patience: nat, entry: string, cause: string)
    ensures
      var run := Run(1, patience, [Log(1, true, Some(id))],
                     [Poll(Some(1), true, _ => Exchange(noted, checked, Result(entry, EstimateFailed(cause))))]);
      After(run, 1).next == 2 && Behind(run, 0) && IsDone(run, 0) && After(run, 1).memory.submitted == []
  {
    var chain := [Log(1, true, Some(id))];
    var run := Run(1, patience, chain, [Poll(Some(1), true, _ => Exchange(noted, checked, Result(entry, EstimateFailed(cause))))]);
    BlankAtFirst(run);
    AfterStep(run, 0);
    EveryFailedEstimateMatches(entry, EstimateFailed(cause));
    var xs := run.polls[0].xs;
    assert ScanLogs(BLANK, patience, chain, xs, 1, 1, 0) == Scan(BLANK, false);
    assert ScanLogs(BLANK, patience, chain, xs, 1, 1, 1).memory.done == {id};
  }

  /** An action is completed at one log once. */
  lemma CompletedOnce(run: Run, id: nat, reason: Reason, i: nat, other: Reason, i': nat, k: nat)
    requires CompletedAt(run, id, reason, i, k) && CompletedAt(run, id, other, i', k)
    ensures i == i' && reason == other
  {
    if i < i' {
      CompletedStays(run, id, reason, i, other, i', k);
    } else if i' < i {
      CompletedStays(run, id, other, i', reason, i, k);
    }
  }

  lemma CompletedStays(run: Run, id: nat, reason: Reason, i: nat, other: Reason, i': nat, k: nat)
    requires CompletedAt(run, id, reason, i, k) && CompletedAt(run, id, other, i', k)
    ensures i >= i'
  {
    hide PollAll, ScanLogs, IsAlreadyApplied;
    if i < i' {
      assert EverCompleted(run, id, i');
      DoneExactly(run, i', id);
      var c, poll := After(run, i'), run.polls[i'];
      ScanKeepsDone(c.memory, run.patience, run.chain, poll.xs, c.next, poll.head.value, k);
    }
  }
}
