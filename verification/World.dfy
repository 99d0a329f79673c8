/** The whole protocol: the two contracts, the enclave, and a network between them that delays,
    drops, reorders and repeats whatever it likes.

    Instructions reach the enclave by being picked from the registry's log, any of them, any number
    of times. Results reach the controller by being submitted by anyone, at any time; a result that
    carries the enclave's signature is one the enclave has emitted. The signing handler drops its
    lock while it reads the ledger, so it is two steps here and signings interleave freely. */
module World {
  import opened Wrappers
  import opened Bytes
  import opened Protocol
  import opened Payments
  import opened Books
  import opened BookRuns
  import opened BookTerms
  import opened Settlement
  import opened EnclaveState

  /** What is fixed for a deployment: the enclave's cryptography, the verifier, and the one response
      FDC attests for each XRPL transaction id, if any. */
  datatype Net = Net(crypto: Crypto, site: Site, fdc: Bytes32 -> Option<ResponseBody>)

  /** A payment the enclave has signed: the result, when it was signed, the validated ledger it read. */
  datatype Signature = Signature(body: ResultBody, at: nat, ledger: uint32)

  /** `adopted` remembers every policy the enclave has held, `lastDelivered` the position in the log
      of the policy instruction it handled last for each treasury. */
  datatype State = State(
    system: System, vault: Vault, jobs: seq<Job>, clock: nat,
    emitted: set<ResultBody>, signings: seq<Signature>,
    adopted: set<(nat, Policy)>, lastDelivered: map<nat, nat>)

  datatype Happening =
    | Tick(seconds: nat)
    | Chain(call: Call)
    | Settle(verified: bool, rid: nat, proof: Proof)
    | Deliver(index: nat, key: Option<SigningKey>, nodeUp: bool)
    | BeginSigning(index: nat)
    | FinishSigning(job: nat, sequence: Option<uint32>, ledger: Option<uint32>)

  function Start(config: Config, clock: nat): State {
    State(Fresh(config), Vault(map[], map[]), [], clock, {}, [], {}, map[])
  }

  ghost predicate Wired(net: Net, config: Config) {
    Deployed(net.site, config) && net.site.word == net.crypto.word
  }

  /** The enclave signs what it emits, with status 1, and nothing else. (It also signs refusals; they
      carry no data, so no entry point decodes them.) */
  ghost predicate Authentic(s: State, c: Call) {
    match ResultOf(c)
    case Some(res) => res.signer == s.system.book.config.teeAddress ==> res.status == 1 && res.body in s.emitted
    case None => true
  }

  ghost predicate Possible(net: Net, s: State, e: Happening) {
    var log := s.system.book.sent;
    match e
    case Tick(_) => true
    case Chain(call) => Settlement.Possible(net.site, Direct(Event(s.clock, call))) && Authentic(s, call)
    case Settle(verified, _, proof) => verified ==> net.fdc(proof.transactionId) == Some(proof.body)
    case Deliver(i, _, _) => i < |log| && !log[i].command.SignXrplPayment?
    case BeginSigning(i) => i < |log| && log[i].command.SignXrplPayment?
    case FinishSigning(j, _, _) => j < |s.jobs|
  }

  function PoliciesOf(v: Vault): set<(nat, Policy)> {
    set tid | tid in v.treasuries :: (tid, v.treasuries[tid].policy)
  }

  /** The enclave has handled an instruction: its reply, if it has one, is out. */
  function Emit(s: State, handled: Handled): State {
    s.(vault := handled.vault, adopted := s.adopted + PoliciesOf(handled.vault),
       emitted := if handled.reply.Ok? then s.emitted + {handled.reply.value} else s.emitted)
  }

  ghost function DeliverStep(net: Net, s: State, i: nat, key: Option<SigningKey>, nodeUp: bool): State
    requires i < |s.system.book.sent|
  {
    var instruction := s.system.book.sent[i];
    var handled := Handle(net.crypto, s.vault, instruction, Input(key, nodeUp, None, None, s.clock));
    var s' := Emit(s, handled);
    if handled.reply.Ok? && (instruction.command.CreateTreasuryKey? || instruction.command.RegisterPolicy?)
    then s'.(lastDelivered := s.lastDelivered[instruction.header.treasuryId := i])
    else s'
  }

  function BeginStep(s: State, h: Header): State {
    var job := BeginSign(s.vault, h);
    if job.Ok? then s.(jobs := s.jobs + [job.value]) else s
  }

  ghost function FinishStep(net: Net, s: State, j: nat, sequence: Option<uint32>, ledger: Option<uint32>): State
    requires j < |s.jobs|
  {
    var handled := FinishSign(net.crypto, s.vault, s.jobs[j], Input(None, true, sequence, ledger, s.clock));
    var s' := Emit(s, handled).(jobs := s.jobs[..j] + s.jobs[j + 1..]);
    if handled.reply.Ok? && ledger.Some? then s'.(signings := s.signings + [Signature(handled.reply.value, s.clock, ledger.value)])
    else s'
  }

  /** What is not possible does not happen. */
  ghost function Next(net: Net, s: State, e: Happening): State {
    if !Possible(net, s, e) then s
    else
      match e
      case Tick(seconds) => s.(clock := s.clock + seconds)
      case Chain(call) => s.(system := Step(net.site, s.system, Direct(Event(s.clock, call))))
      case Settle(verified, rid, proof) => s.(system := Step(net.site, s.system, Finalize(verified, rid, proof)))
      case Deliver(i, key, nodeUp) => DeliverStep(net, s, i, key, nodeUp)
      case BeginSigning(i) => BeginStep(s, s.system.book.sent[i].header)
      case FinishSigning(j, sequence, ledger) => FinishStep(net, s, j, sequence, ledger)
  }

  // ---- Histories ----

  /** A history: what happened, and the state before and after each happening. */
  datatype Trace = Trace(states: seq<State>, happenings: seq<Happening>)

  ghost predicate Follows(net: Net, tr: Trace, i: nat) {
    i < |tr.happenings| < |tr.states| ==> tr.states[i + 1] == Next(net, tr.states[i], tr.happenings[i])
  }

  ghost predicate TraceOf(net: Net, config: Config, tr: Trace) {
    && |tr.states| == |tr.happenings| + 1
    && (exists clock :: tr.states[0] == Start(config, clock))
    && forall i: nat {:trigger Follows(net, tr, i)} :: Follows(net, tr, i)
  }

  function Last(tr: Trace): State
    requires |tr.states| > 0
  {
    tr.states[|tr.states| - 1]
  }

  /** Some history of a fresh deployment leads to this state. */
  ghost predicate Reachable(net: Net, config: Config, s: State) {
    exists tr :: TraceOf(net, config, tr) && Last(tr) == s
  }
}
