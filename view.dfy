/** View-derivation rules of the mint page: `allowlistOk`, `canMint` and the quantity stepper. */
module View {
  import opened Outcomes
  import opened Chains
  import opened Phases

  /** `isConnected`: the connector reports "connected" and the account has a (truthy) address. */
  predicate IsConnected(connected: bool, address: string)
  {
    connected && address != ""
  }

  /** `allowlistOk = !allowlistRequired || Boolean(allowlistEligible)`; `Boolean(null)` is false. */
  predicate AllowlistOk(active: Option<Phase>, eligible: Option<bool>)
  {
    var required := active.Some? && active.value.allowlistEnabled;
    !required || eligible == Some(true)
  }

  /** `canMint`, over the page's raw state. */
  predicate CanMint(connected: bool, address: string, chain: Option<int>, target: int,
                    phases: seq<Phase>, isLive: Phase -> bool, paused: bool, eligible: Option<bool>)
  {
    var active := ActivePhase(phases, isLive);
    IsConnected(connected, address) && IsCorrectChain(chain, target) && PhaseLive(active, isLive) &&
    !paused && AllowlistOk(active, eligible)
  }

  /** `canMint` holds exactly when the wallet is connected on the right chain, some phase is live,
      the sale is not paused, and the displayed phase either needs no allowlist or the wallet is
      known to be eligible. */
  lemma CanMintSpec(connected: bool, address: string, chain: Option<int>, target: int,
                    phases: seq<Phase>, isLive: Phase -> bool, paused: bool, eligible: Option<bool>)
    ensures CanMint(connected, address, chain, target, phases, isLive, paused, eligible) <==>
              connected && address != "" && IsCorrectChain(chain, target) &&
              (exists i :: 0 <= i < |phases| && isLive(phases[i])) && !paused &&
              (ActivePhase(phases, isLive).Some? && ActivePhase(phases, isLive).value.allowlistEnabled ==> eligible == Some(true))
  {
    PhaseLiveIffSomeLive(phases, isLive);
    ActivePhaseSpec(phases, isLive);
  }

  /** Unknown eligibility (`null`) never lets the wallet mint in an allowlisted phase. */
  lemma UnknownEligibilityBlocksAllowlistedMint(connected: bool, address: string, chain: Option<int>, target: int,
                    phases: seq<Phase>, isLive: Phase -> bool, paused: bool)
    requires ActivePhase(phases, isLive).Some? && ActivePhase(phases, isLive).value.allowlistEnabled
    ensures !CanMint(connected, address, chain, target, phases, isLive, paused, None)
  {
  }

  /** The quantity stepper's decrement updater, `q => Math.max(1, q - 1)`. */
  function StepDown(q: int): (r: int)
    ensures r >= 1
    ensures q > 1 ==> r == q - 1
    ensures q <= 1 ==> r == 1
  {
    if q - 1 > 1 then q - 1 else 1
  }

  /** The increment updater, `q => q + 1`. */
  function StepUp(q: int): int
  {
    q + 1
  }

  /** Stepping up then down returns to any quantity the stepper can show. */
  lemma StepDownUndoesStepUp(q: int)
    requires q >= 1
    ensures StepDown(StepUp(q)) == q
  {
  }

  /** Stepping down then up returns to the start unless the decrement was clamped. */
  lemma StepUpUndoesStepDown(q: int)
    requires q >= 2
    ensures StepUp(StepDown(q)) == q
  {
  }
}
