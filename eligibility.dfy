/** `loadEligibility`: whether the connected wallet may mint in the displayed phase.
    The on-chain allowlist read and the off-chain proof lookup are inputs. */
module Allowlist {
  import opened Outcomes
  import opened Phases

  /** `ethers.constants.HashZero`. */
  const HashZero: string := "0x0000000000000000000000000000000000000000000000000000000000000000"

  /** `root && root !== HashZero`: an empty root is falsy. */
  predicate RootIsNonzero(root: string)
  {
    root != "" && root != HashZero
  }

  /** The tri-state `allowlistEligible`: `None` is `null`.
      `allowed` is the awaited `phaseAllowlist(phase.id, address)` read (a `Throw` stands for any
      read that threw inside the `try`); `proof` is what the proof lookup returned for that phase
      and wallet (the lookup itself never throws). */
  function Eligibility(address: string, active: Option<Phase>, allowed: Outcome<bool>, proof: seq<string>): Option<bool>
  {
    if address == "" || active.None? then None
    else if !active.value.allowlistEnabled then Some(true)
    else match allowed
      case Throw(_) => None
      case Ok(onChain) =>
        if onChain then Some(true)
        else if RootIsNonzero(active.value.allowlistRoot) then Some(|proof| > 0)
        else Some(false)
  }

  /** The resolution order: unknown without wallet or phase; eligible without an allowlist or when
      allowed on chain; else decided by the proof when the root is nonzero; else ineligible. */
  lemma EligibilityResolution(address: string, active: Option<Phase>, allowed: Outcome<bool>, proof: seq<string>)
    ensures address == "" || active.None? ==> Eligibility(address, active, allowed, proof) == None
    ensures address != "" && active.Some? && !active.value.allowlistEnabled ==>
              Eligibility(address, active, allowed, proof) == Some(true)
    ensures address != "" && active.Some? && allowed == Ok(true) ==>
              Eligibility(address, active, allowed, proof) == Some(true)
    ensures address != "" && active.Some? && active.value.allowlistEnabled && allowed == Ok(false) ==>
              Eligibility(address, active, allowed, proof) ==
                (if RootIsNonzero(active.value.allowlistRoot) then Some(proof != []) else Some(false))
  {
  }

  /** A phase without an allowlist makes every connected wallet eligible. */
  lemma NoAllowlistAlwaysEligible(address: string, p: Phase, allowed: Outcome<bool>, proof: seq<string>)
    requires address != "" && !p.allowlistEnabled
    ensures Eligibility(address, Some(p), allowed, proof) == Some(true)
  {
  }

  /** A read that throws yields "unknown", never "ineligible". */
  lemma ThrownReadIsUnknown(address: string, active: Option<Phase>, e: Thrown, proof: seq<string>)
    ensures Eligibility(address, active, Throw(e), proof) != Some(false)
    ensures address != "" && active.Some? && active.value.allowlistEnabled ==>
              Eligibility(address, active, Throw(e), proof) == None
  {
  }

  /** Exactly when the wallet is marked ineligible. */
  lemma IneligibleExactly(address: string, active: Option<Phase>, allowed: Outcome<bool>, proof: seq<string>)
    ensures Eligibility(address, active, allowed, proof) == Some(false) <==>
              address != "" && active.Some? && active.value.allowlistEnabled && allowed == Ok(false) &&
              (RootIsNonzero(active.value.allowlistRoot) ==> proof == [])
  {
  }

  /** With the root at zero the proof lookup is never consulted. */
  lemma ZeroRootIgnoresProof(address: string, active: Option<Phase>, allowed: Outcome<bool>, p1: seq<string>, p2: seq<string>)
    requires active.Some? && !RootIsNonzero(active.value.allowlistRoot)
    ensures Eligibility(address, active, allowed, p1) == Eligibility(address, active, allowed, p2)
  {
  }
}
