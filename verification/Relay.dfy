/** The relay as the object it is: maps written while logs are handled, inside a polling loop. */
module Relays {
  import opened RelayState

  class Relay {
    const patience: nat
    var done: set<nat>
    var firstSeen: map<nat, nat>
    ghost var last: map<nat, Verdict>
    ghost var submitted: seq<nat>

    ghost function State(): Memory
      reads this
    {
      Memory(done, firstSeen, last, submitted)
    }

    constructor (patience: nat)
      ensures this.patience == patience && State() == BLANK
    {
      this.patience := patience;
      done, firstSeen, last, submitted := {}, map[], map[], [];
    }

    method HandleLog(log: Log, x: Exchange) returns (verdict: Verdict)
      modifies this
      ensures Step(State(), verdict) == Handle(old(State()), patience, log, x)
    {
      if log.action.None? {
        return Failed;
      }
      var id := log.action.value;
      if id in done {
        return Finished;
      }
      if id !in firstSeen {
        firstSeen := firstSeen[id := x.noted];
      }
      match x.answer {
        case NotReady =>
          if x.checked - firstSeen[id] > patience {
            done := done + {id};
            return Failed;
          }
          return Waiting;
        case ProxyFailure => return Failed;
        case Result(entry, sent) =>
          if !sent.Accepted? {
            if IsAlreadyApplied(Message(entry, sent)) {
              done := done + {id};
              return Finished;
            }
            return Failed;
          }
          done := done + {id};
          submitted := submitted + [id];
          return Finished;
      }
    }

    /** Handle the logs of one fetched range; say whether any is not ready. */
    method ScanRange(chain: seq<Log>, xs: nat -> Exchange, lo: nat, hi: nat) returns (pending: bool)
      modifies this
      ensures Scan(State(), pending) == ScanLogs(old(State()), patience, chain, xs, lo, hi, |chain|)
    {
      pending := false;
      for n := 0 to |chain|
        invariant Scan(State(), pending) == ScanLogs(old(State()), patience, chain, xs, lo, hi, n)
      {
        if InRange(chain[n], lo, hi) {
          var verdict := HandleLog(chain[n], xs(n));
          last := last[n := verdict];
          if verdict.Waiting? {
            pending := true;
          }
        }
      }
    }

    /** The polling loop, for as many polls as there are. */
    method Run(chain: seq<Log>, from: nat, firstHead: nat, polls: seq<Poll>) returns (next: nat)
      requires State() == BLANK
      modifies this
      ensures Cursor(State(), next) == PollAll(StartBlock(from, firstHead), patience, chain, polls)
      ensures NoneSkipped(Cursor(State(), next), StartBlock(from, firstHead), chain)
      ensures WatchedAreHandled(Cursor(State(), next), from, firstHead, chain)
      ensures SubmittedOnce(State())
    {
      next := from;
      if next == 0 {
        if firstHead > 200 {
          next := firstHead - 200;
        }
      }
      ghost var start := next;
      for i := 0 to |polls|
        invariant Cursor(State(), next) == PollAll(start, patience, chain, polls[..i])
      {
        assert polls[..i + 1][..i] == polls[..i];
        var poll := polls[i];
        if poll.head.Some? && poll.head.value >= next && poll.fetched {
          var pending := ScanRange(chain, poll.xs, next, poll.head.value);
          if !pending {
            next := poll.head.value + 1;
          }
        }
      }
      assert polls[..|polls|] == polls;
      CursorNeverSkips(start, patience, chain, polls);
      WatchedHandled(from, firstHead, patience, chain, polls);
      NoActionSubmittedTwice(start, patience, chain, polls);
    }
  }
}
