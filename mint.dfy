/** `handleMint`: the precondition checks, the allowlist gate, the payable value and the status
    the mint leaves behind. The chain reads and writes it awaits are inputs. */
module MintAction {
  import opened Outcomes
  import opened Chains
  import opened Phases
  import opened Allowlist
  import opened View

  /** The single status slot: `{ type, message }`. */
  datatype TxKind = Idle | Pending | Success | Error
  datatype TxStatus = TxStatus(kind: TxKind, message: string)

  const ConnectFirst: string := "Connect a wallet first"
  const AwaitingWallet: string := "Waiting for wallet confirmation"
  const NoActivePhase: string := "No active phase available"
  const NotAllowlisted: string := "Wallet is not allowlisted for this phase"
  const Submitted: string := "Transaction submitted"
  const MintSucceeded: string := "Mint successful"
  const MintFailed: string := "Mint failed"

  /** `Switch to ${NETWORK_NAME} network`. */
  function SwitchNetwork(network: string): string
  {
    "Switch to " + network + " network"
  }

  /** `contract.getActivePhase()`: the existence flag, the phase id and the price in wei. */
  datatype ActivePhaseRead = ActivePhaseRead(active: bool, phaseId: nat, price: int)

  /** What each awaited step of `handleMint` produces, in the order the steps run. */
  datatype MintReads = MintReads(
    writeContract: Outcome<()>,           // getWriteContract(account, chain)
    activePhase: Outcome<ActivePhaseRead>, // contract.getActivePhase()
    fee: Outcome<int>,                    // contract.launchpadFee()
    allowlistEnabled: Outcome<bool>,      // contract.phaseAllowlistEnabled(phaseId)
    allowed: Outcome<bool>,               // contract.phaseAllowlist(phaseId, address)
    proof: seq<string>,                   // fetchAllowlistProof(phaseId, address), which never throws
    submit: Outcome<()>,                  // contract.publicMint(quantity, proof, { value })
    confirm: Outcome<()>)                 // tx.wait()

  /** The arguments of a `publicMint` call. */
  datatype MintCall = MintCall(quantity: int, proof: seq<string>, value: int)

  /** One run of `handleMint`: every status written, in order; the `publicMint` call made, if any;
      and whether the transaction was confirmed (which triggers the refreshes). */
  datatype MintRun = MintRun(writes: seq<TxStatus>, call: Option<MintCall>, confirmed: bool)

  /** `price.mul(quantity).add(fee.mul(quantity))`, exact integer wei. */
  function MintValue(price: int, fee: int, quantity: int): int
  {
    price * quantity + fee * quantity
  }

  /** The payable value is the per-token total times the quantity. */
  lemma MintValueFactored(price: int, fee: int, quantity: int)
    ensures MintValue(price, fee, quantity) == (price + fee) * quantity
  {
  }

  /** 1 ether price, 0.01 ether fee, three tokens: exactly 3.03 ether, in wei. */
  lemma MintValueExample()
    ensures MintValue(1_000_000_000_000_000_000, 10_000_000_000_000_000, 3) == 3_030_000_000_000_000_000
  {
  }

  /** `error?.reason || error?.message || "Mint failed"`. */
  function ErrorText(e: Thrown): string
  {
    OrElse(e.reason, OrElse(e.message, MintFailed))
  }

  /** The revert reason wins over the message, which wins over the generic text; never empty. */
  lemma ErrorTextPriority(e: Thrown)
    ensures e.reason != "" ==> ErrorText(e) == e.reason
    ensures e.reason == "" && e.message != "" ==> ErrorText(e) == e.message
    ensures e.reason == "" && e.message == "" ==> ErrorText(e) == MintFailed
    ensures ErrorText(e) != ""
  {
  }

  function Failed(e: Thrown): TxStatus
  {
    TxStatus(Error, ErrorText(e))
  }

  /** The outcome of the allowlist step of `handleMint`. */
  datatype Gate = Pass(proof: seq<string>) | Refused | GateThrew(error: Thrown)

  /** With an allowlist, a wallet not allowed on chain needs a non-empty fetched proof. The proof
      is fetched whatever the phase's Merkle root is. */
  function AllowlistGate(enabled: bool, allowed: Outcome<bool>, fetched: seq<string>): Gate
  {
    if !enabled then Pass([])
    else match allowed
      case Throw(e) => GateThrew(e)
      case Ok(onChain) =>
        if onChain then Pass([])
        else if |fetched| == 0 then Refused
        else Pass(fetched)
  }

  /** The proof sent with the mint is empty unless it was fetched after a failed on-chain check;
      the gate refuses exactly an allowlisted wallet that is neither allowed nor has a proof. */
  lemma AllowlistGateSpec(enabled: bool, allowed: Outcome<bool>, fetched: seq<string>)
    ensures AllowlistGate(enabled, allowed, fetched).Pass? && AllowlistGate(enabled, allowed, fetched).proof != [] ==>
              enabled && allowed == Ok(false) && AllowlistGate(enabled, allowed, fetched).proof == fetched
    ensures AllowlistGate(enabled, allowed, fetched) == Refused <==> enabled && allowed == Ok(false) && fetched == []
    ensures AllowlistGate(enabled, allowed, fetched).GateThrew? <==> enabled && allowed.Throw?
    ensures enabled && allowed == Ok(false) && fetched != [] ==> AllowlistGate(enabled, allowed, fetched) == Pass(fetched)
    ensures !enabled || allowed == Ok(true) ==> AllowlistGate(enabled, allowed, fetched) == Pass([])
  {
  }

  function Aborted(writes: seq<TxStatus>): MintRun
  {
    MintRun(writes, None, false)
  }

  /** `handleMint` from start to end. */
  function RunMint(connected: bool, address: string, chain: Option<int>, target: int, network: string,
                   quantity: int, r: MintReads): MintRun
  {
    if !IsConnected(connected, address) then Aborted([TxStatus(Error, ConnectFirst)])
    else if !IsSupportedChain(chain, target) then Aborted([TxStatus(Error, SwitchNetwork(network))])
    else if !IsTargetChain(chain, target) then Aborted([TxStatus(Error, SwitchNetwork(network))])
    else
      var rest := MintAfterChecks(quantity, r);
      MintRun([TxStatus(Pending, AwaitingWallet)] + rest.writes, rest.call, rest.confirmed)
  }

  /** The steps of `handleMint` after "Waiting for wallet confirmation" has been written. */
  function MintAfterChecks(quantity: int, r: MintReads): MintRun
  {
    if r.writeContract.Throw? then Aborted([Failed(r.writeContract.error)])
    else if r.activePhase.Throw? then Aborted([Failed(r.activePhase.error)])
    else if r.fee.Throw? then Aborted([Failed(r.fee.error)])
    else if !r.activePhase.value.active then Aborted([TxStatus(Error, NoActivePhase)])
    else if r.allowlistEnabled.Throw? then Aborted([Failed(r.allowlistEnabled.error)])
    else match AllowlistGate(r.allowlistEnabled.value, r.allowed, r.proof)
      case GateThrew(e) => Aborted([Failed(e)])
      case Refused => Aborted([TxStatus(Error, NotAllowlisted)])
      case Pass(proof) =>
        var call := MintCall(quantity, proof, MintValue(r.activePhase.value.price, r.fee.value, quantity));
        match r.submit
        case Throw(e) => MintRun([Failed(e)], Some(call), false)
        case Ok(_) =>
          match r.confirm
          case Throw(e) => MintRun([TxStatus(Pending, Submitted), Failed(e)], Some(call), false)
          case Ok(_) => MintRun([TxStatus(Pending, Submitted), TxStatus(Success, MintSucceeded)], Some(call), true)
  }

  /** The three preconditions are checked in order; the first that fails writes its message as the
      only status, and nothing is read or submitted. */
  lemma MintPreconditionsInOrder(connected: bool, address: string, chain: Option<int>, target: int, network: string,
                                 quantity: int, r: MintReads)
    ensures !IsConnected(connected, address) ==>
              RunMint(connected, address, chain, target, network, quantity, r) == MintRun([TxStatus(Error, ConnectFirst)], None, false)
    ensures IsConnected(connected, address) && !IsSupportedChain(chain, target) ==>
              RunMint(connected, address, chain, target, network, quantity, r) == MintRun([TxStatus(Error, SwitchNetwork(network))], None, false)
    ensures IsConnected(connected, address) && IsSupportedChain(chain, target) && !IsTargetChain(chain, target) ==>
              RunMint(connected, address, chain, target, network, quantity, r) == MintRun([TxStatus(Error, SwitchNetwork(network))], None, false)
    ensures IsConnected(connected, address) && IsCorrectChain(chain, target) ==>
              |RunMint(connected, address, chain, target, network, quantity, r).writes| >= 2 &&
              RunMint(connected, address, chain, target, network, quantity, r).writes[0] == TxStatus(Pending, AwaitingWallet)
  {
  }

  /** A `publicMint` call is made only when every check passed, and it carries the requested
      quantity, the exact value `(price + fee) * quantity`, and the proof the gate let through. */
  lemma MintCallOnlyAfterAllChecks(connected: bool, address: string, chain: Option<int>, target: int, network: string,
                                   quantity: int, r: MintReads)
    requires RunMint(connected, address, chain, target, network, quantity, r).call.Some?
    ensures IsConnected(connected, address) && IsCorrectChain(chain, target)
    ensures r.writeContract.Ok? && r.activePhase.Ok? && r.fee.Ok? && r.allowlistEnabled.Ok?
    ensures r.activePhase.value.active
    ensures var call := RunMint(connected, address, chain, target, network, quantity, r).call.value;
            AllowlistGate(r.allowlistEnabled.value, r.allowed, r.proof) == Pass(call.proof) &&
            call.quantity == quantity &&
            call.value == (r.activePhase.value.price + r.fee.value) * quantity
  {
    MintValueFactored(r.activePhase.value.price, r.fee.value, quantity);
  }

  /** Once every check passes, `publicMint` is called with the quantity, the gated proof and the
      value `(price + fee) * quantity`; "Transaction submitted" follows a successful submission, and
      the run ends with "Mint successful" or the error of the step that threw. */
  lemma MintCallWhenChecksPass(connected: bool, address: string, chain: Option<int>, target: int, network: string,
                               quantity: int, r: MintReads)
    requires IsConnected(connected, address) && IsCorrectChain(chain, target)
    requires r.writeContract.Ok? && r.activePhase.Ok? && r.fee.Ok? && r.allowlistEnabled.Ok?
    requires r.activePhase.value.active
    requires AllowlistGate(r.allowlistEnabled.value, r.allowed, r.proof).Pass?
    ensures var run := RunMint(connected, address, chain, target, network, quantity, r);
            run.call == Some(MintCall(quantity, AllowlistGate(r.allowlistEnabled.value, r.allowed, r.proof).proof,
                                      (r.activePhase.value.price + r.fee.value) * quantity))
    ensures var run := RunMint(connected, address, chain, target, network, quantity, r);
            run.writes[0] == TxStatus(Pending, AwaitingWallet) &&
            run.writes[1..] ==
              (if r.submit.Throw? then [Failed(r.submit.error)]
               else if r.confirm.Throw? then [TxStatus(Pending, Submitted), Failed(r.confirm.error)]
               else [TxStatus(Pending, Submitted), TxStatus(Success, MintSucceeded)])
    ensures RunMint(connected, address, chain, target, network, quantity, r).confirmed <==> r.submit.Ok? && r.confirm.Ok?
  {
    MintValueFactored(r.activePhase.value.price, r.fee.value, quantity);
  }

  /** No active phase, or an allowlisted wallet that is neither allowed on chain nor has a proof,
      aborts with its message and no mint. */
  lemma MintBusinessAborts(connected: bool, address: string, chain: Option<int>, target: int, network: string,
                           quantity: int, r: MintReads)
    requires IsConnected(connected, address) && IsCorrectChain(chain, target)
    requires r.writeContract.Ok? && r.activePhase.Ok? && r.fee.Ok?
    ensures !r.activePhase.value.active ==>
              RunMint(connected, address, chain, target, network, quantity, r) ==
                MintRun([TxStatus(Pending, AwaitingWallet), TxStatus(Error, NoActivePhase)], None, false)
    ensures r.activePhase.value.active && r.allowlistEnabled == Ok(true) && r.allowed == Ok(false) && r.proof == [] ==>
              RunMint(connected, address, chain, target, network, quantity, r) ==
                MintRun([TxStatus(Pending, AwaitingWallet), TxStatus(Error, NotAllowlisted)], None, false)
  {
  }

  /** Helper for `MintFinalStatus`: a failed step's status is an error with a non-empty text. */
  lemma FailedIsError(e: Thrown)
    ensures Failed(e).kind == Error && Failed(e).message != ""
  {
    ErrorTextPriority(e);
  }

  /** Helper for `MintFinalStatus`: the same facts for the steps after the three checks, step by step. */
  lemma AfterChecksFinalStatus(quantity: int, r: MintReads)
    ensures var run := MintAfterChecks(quantity, r);
            |run.writes| > 0 &&
            (run.confirmed <==> Last(run.writes) == TxStatus(Success, MintSucceeded)) &&
            (!run.confirmed ==> Last(run.writes).kind == Error && Last(run.writes).message != "")
  {
    if r.writeContract.Throw? { FailedIsError(r.writeContract.error); }
    else if r.activePhase.Throw? { FailedIsError(r.activePhase.error); }
    else if r.fee.Throw? { FailedIsError(r.fee.error); }
    else if !r.activePhase.value.active { }
    else if r.allowlistEnabled.Throw? { FailedIsError(r.allowlistEnabled.error); }
    else if r.allowed.Throw? { FailedIsError(r.allowed.error); }
    if r.submit.Throw? { FailedIsError(r.submit.error); }
    if r.confirm.Throw? { FailedIsError(r.confirm.error); }
  }

  /** Past the three checks, a contract read that throws ends the run right after the first pending
      status with that read's own error text and no call. The reads run in source order: the write
      contract, the active phase, the fee (before the phase's existence is checked), the allowlist
      flag, then the on-chain allowlist entry. */
  lemma MintReadErrorsReported(connected: bool, address: string, chain: Option<int>, target: int, network: string,
                               quantity: int, r: MintReads)
    requires IsConnected(connected, address) && IsCorrectChain(chain, target)
    ensures var run := RunMint(connected, address, chain, target, network, quantity, r);
            r.writeContract.Throw? ==>
              run == MintRun([TxStatus(Pending, AwaitingWallet), Failed(r.writeContract.error)], None, false)
    ensures var run := RunMint(connected, address, chain, target, network, quantity, r);
            r.writeContract.Ok? && r.activePhase.Throw? ==>
              run == MintRun([TxStatus(Pending, AwaitingWallet), Failed(r.activePhase.error)], None, false)
    ensures var run := RunMint(connected, address, chain, target, network, quantity, r);
            r.writeContract.Ok? && r.activePhase.Ok? && r.fee.Throw? ==>
              run == MintRun([TxStatus(Pending, AwaitingWallet), Failed(r.fee.error)], None, false)
    ensures var run := RunMint(connected, address, chain, target, network, quantity, r);
            r.writeContract.Ok? && r.activePhase.Ok? && r.fee.Ok? && r.activePhase.value.active &&
            r.allowlistEnabled.Throw? ==>
              run == MintRun([TxStatus(Pending, AwaitingWallet), Failed(r.allowlistEnabled.error)], None, false)
    ensures var run := RunMint(connected, address, chain, target, network, quantity, r);
            r.writeContract.Ok? && r.activePhase.Ok? && r.fee.Ok? && r.activePhase.value.active &&
            r.allowlistEnabled == Ok(true) && r.allowed.Throw? ==>
              run == MintRun([TxStatus(Pending, AwaitingWallet), Failed(r.allowed.error)], None, false)
  {
  }

  /** The final status is success exactly when the transaction was confirmed; otherwise it is an
      error with a non-empty text. Which thrown error supplies that text is stated step by step by
      `MintReadErrorsReported` (the contract reads), `MintCallWhenChecksPass` (`publicMint` and
      `tx.wait`) and the second clause here (`tx.wait`). */
  lemma MintFinalStatus(connected: bool, address: string, chain: Option<int>, target: int, network: string,
                        quantity: int, r: MintReads)
    ensures var run := RunMint(connected, address, chain, target, network, quantity, r);
            |run.writes| > 0 &&
            (run.confirmed <==> Last(run.writes) == TxStatus(Success, MintSucceeded)) &&
            (!run.confirmed ==> Last(run.writes).kind == Error && Last(run.writes).message != "")
    ensures var run := RunMint(connected, address, chain, target, network, quantity, r);
            run.call.Some? && r.submit.Ok? && r.confirm.Throw? ==> Last(run.writes) == Failed(r.confirm.error)
  {
    if IsConnected(connected, address) && IsCorrectChain(chain, target) {
      AfterChecksFinalStatus(quantity, r);
      var rest := MintAfterChecks(quantity, r);
      assert Last([TxStatus(Pending, AwaitingWallet)] + rest.writes) == Last(rest.writes);
    }
  }

  /** The mint path and the eligibility path disagree on a zero Merkle root: `loadEligibility`
      marks a wallet that is not allowed on chain ineligible without looking at the proof file,
      while `handleMint` fetches the proof anyway and mints with it. */
  lemma ZeroRootDivergence(address: string, p: Phase, proof: seq<string>)
    requires address != "" && p.allowlistEnabled && !RootIsNonzero(p.allowlistRoot) && proof != []
    ensures Eligibility(address, Some(p), Ok(false), proof) == Some(false)
    ensures AllowlistGate(p.allowlistEnabled, Ok(false), proof) == Pass(proof)
  {
  }

  /** One instance: the all-zero root, with a one-element proof. */
  lemma ZeroRootDivergenceExample()
    ensures var p := Phase(0, "Allowlist", 0, 1, 0, 1, true, HashZero);
            Eligibility("0xa11ce", Some(p), Ok(false), ["0x01"]) == Some(false) &&
            AllowlistGate(p.allowlistEnabled, Ok(false), ["0x01"]) == Pass(["0x01"])
  {
    ZeroRootDivergence("0xa11ce", Phase(0, "Allowlist", 0, 1, 0, 1, true, HashZero), ["0x01"]);
  }

  /** With a nonzero root both paths agree for the same on-chain answer and the same proof. */
  lemma NonzeroRootAgreement(address: string, p: Phase, allowed: Outcome<bool>, proof: seq<string>)
    requires address != "" && p.allowlistEnabled && RootIsNonzero(p.allowlistRoot)
    ensures Eligibility(address, Some(p), allowed, proof) == Some(true) <==>
              AllowlistGate(p.allowlistEnabled, allowed, proof).Pass?
    ensures Eligibility(address, Some(p), allowed, proof) == Some(false) <==>
              AllowlistGate(p.allowlistEnabled, allowed, proof) == Refused
  {
  }
}
