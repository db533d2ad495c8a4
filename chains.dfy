/** Which wallet networks the page accepts (the `SUPPORTED_CHAIN_IDS`, `isSupportedChain`,
    `isTargetChain` and `isCorrectChain` rules of the mint page). */
module Chains {
  import opened Outcomes

  /** Chain ids accepted when no target chain is configured. */
  const FallbackSupportedChainIds: seq<int> := [1, 11155111, 5, 137]

  /** The configured target chain id; 0 means "not configured" (a falsy `TARGET_CHAIN_ID`). */
  predicate HasTarget(target: int)
  {
    target != 0
  }

  function SupportedChainIds(target: int): seq<int>
  {
    if HasTarget(target) then [target] else FallbackSupportedChainIds
  }

  /** `!chain || SUPPORTED_CHAIN_IDS.includes(chain.id)`: a missing wallet chain counts as supported. */
  predicate IsSupportedChain(chain: Option<int>, target: int)
  {
    chain.None? || chain.value in SupportedChainIds(target)
  }

  /** With a target configured, the wallet must be on exactly that chain; otherwise always true. */
  predicate IsTargetChain(chain: Option<int>, target: int)
  {
    HasTarget(target) ==> chain.Some? && chain.value == target
  }

  predicate IsCorrectChain(chain: Option<int>, target: int)
  {
    IsSupportedChain(chain, target) && IsTargetChain(chain, target)
  }

  /** With a target configured, the correct chain is the target chain and nothing else. */
  lemma CorrectChainWithTarget(chain: Option<int>, target: int)
    requires HasTarget(target)
    ensures IsCorrectChain(chain, target) <==> chain == Some(target)
  {
  }

  /** Without a target, any of the four fallback networks is correct, and so is a missing chain. */
  lemma CorrectChainWithoutTarget(chain: Option<int>)
    ensures IsCorrectChain(chain, 0) <==>
              chain.None? || chain.value == 1 || chain.value == 11155111 || chain.value == 5 || chain.value == 137
  {
  }

  /** The target check only fires after the supported check has passed when the wallet reports
      no chain at all: without a target it never fires. */
  lemma TargetCheckCatchesOnlyMissingChain(chain: Option<int>, target: int)
    requires IsSupportedChain(chain, target) && !IsTargetChain(chain, target)
    ensures HasTarget(target) && chain.None?
  {
  }
}
